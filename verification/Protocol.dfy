/**
 The dispatcher as a state machine: one table, one clock, any number of replicas.

 Every SQL statement is one atomic step. A replica is the set of its dispatch tasks and
 at most one scheduler. A task or scheduler that takes no further step has crashed, so
 crashes need no step of their own. A statement whose WHERE clause matches no row changes
 nothing in the table: where the caller moves on it is a step of its own (`Skip`, `Lose`),
 elsewhere it is no step at all.
 */
module Protocol {
  import opened Basics
  import opened Ordered
  import opened Table

  /**
   An event as the dispatcher reads it:
   `plan` - the INSERT statements that schedule it, in order;
   `targets` - the target `validate_named_callback` returns for each name it accepts;
   `hung` - what the sweep reads for each name whose timeout is not NULL;
   `broken` - the names for which a cast of the sweep raises an error.
   */
  datatype Event = Event(
    id: nat,
    plan: seq<seq<Entry>>,
    targets: map<string, Target>,
    hung: map<string, Hung>,
    broken: set<string>)

  /** What the parsers guarantee: targets allow an attempt; a row inserted dead is managed; a row
      inserted alive has the mode its target has; and only the first statement of a plan inserts rows
      alive. */
  predicate WellMade(e: Event) {
    && (forall n :: n in e.targets ==> e.targets[n].maxAttempts >= 1)
    && (forall k, j :: 0 <= k < |e.plan| && 0 <= j < |e.plan[k]| && e.plan[k][j].dead ==> e.plan[k][j].mode.Managed?)
    && (forall k, j :: 0 <= k < |e.plan| && 0 <= j < |e.plan[k]| && !e.plan[k][j].dead ==>
          && k == 0
          && (e.plan[k][j].name in e.targets ==> e.targets[e.plan[k][j].name].mode == e.plan[k][j].mode))
  }

  /** `stale`: the fetched attempt count was not the row's when the lock was taken.
      `epoch`: how often the row's attempts had been reset to 0 by then. */
  datatype Stage =
    | Fetched
    | InFlight(until: Time, stale: bool, epoch: nat)
    | Written(stale: bool, epoch: nat)
    | Skipped

  /** One run of `dispatch_one`. */
  datatype Task = Task(row: nat, attempts: nat, target: Target, stage: Stage)

  /** A scheduler: `start` is the cursor it began with, `cursor` the one in memory.
      It is about to run statement `k` of event `batch[i]`. */
  datatype Sched = Sched(start: nat, cursor: nat, batch: seq<Event>, i: nat, k: nat)

  /** The last five fields only record history: attempt resets per row, who locked
      a row last, the rows inserted by `ensure_deliveries`, the rows an operator retried, and
      whether a rescan ever began. */
  datatype State = State(
    lockBuffer: Time,
    now: Time,
    events: map<nat, Event>,
    nextEvent: nat,
    rows: map<nat, Row>,
    nextRow: nat,
    tasks: map<nat, Task>,
    scheds: map<nat, Sched>,
    epochs: map<nat, nat>,
    holders: map<nat, nat>,
    ensured: set<nat>,
    retried: set<nat>,
    rescanned: bool)

  datatype Step =
    | Tick(to: Time)
    | Publish(event: Event)
    // dispatch: `Skip` is a lock, `Lose` a write-back that finds no row
    | Fetch(task: nat, row: nat)
    | Poison(row: nat, error: string)
    | Take(task: nat, start: Time)
    | Skip(task: nat)
    | Succeed(task: nat)
    | Fail(task: nat, error: string, availableAt: Time)
    | Lose(task: nat)
    // sweep, operator, retention
    | Sweep(at: Time)
    | Retry(row: nat)
    | Complete(row: nat)
    | Abandon(row: nat)
    | Retain(doomed: set<nat>)
    // scheduling: `Next` follows the last statement of an event, `Commit` that of a batch
    | Recover(sched: nat)
    | Rescan(sched: nat, from: nat)
    | FetchBatch(sched: nat, batch: seq<Event>)
    | Insert(sched: nat)
    | Next(sched: nat)
    | Commit(sched: nat)
    | Abort(sched: nat)

  predicate Init(s: State) {
    0.0 <= s.lockBuffer && s.events == map[] && s.nextEvent == 1 && s.rows == map[] &&
    s.tasks == map[] && s.scheds == map[] &&
    s.epochs == map[] && s.holders == map[] && s.ensured == {} && s.retried == {} && !s.rescanned
  }

  // ---- derived values ---------------------------------------------------------

  function Spec(s: State, id: nat): Option<Target> {
    if id in s.rows && s.rows[id].event in s.events && s.rows[id].name in s.events[s.rows[id].event].targets
    then Some(s.events[s.rows[id].event].targets[s.rows[id].name])
    else None
  }

  function HungOf(s: State, id: nat): Option<Hung> {
    if id in s.rows && s.rows[id].event in s.events && s.rows[id].name in s.events[s.rows[id].event].hung
    then Some(s.events[s.rows[id].event].hung[s.rows[id].name])
    else None
  }

  function Epoch(s: State, id: nat): nat {
    if id in s.epochs then s.epochs[id] else 0
  }

  /** A task between its successful lock and its write-back, while its lease lasts. */
  predicate Flying(s: State, t: nat) {
    t in s.tasks && s.tasks[t].stage.InFlight? && s.now <= s.tasks[t].stage.until
  }

  predicate SweepHits(s: State, id: nat, at: Time) {
    id in s.rows && HungOf(s, id).Some? && TimedOut(s.rows[id], HungOf(s, id).value, at)
  }

  /** Live and dispatched: the row waits for a completion or for the sweep. */
  predicate Waiting(r: Row) {
    Live(r) && r.dispatchedAt.Some?
  }

  /** A cast fails on the row, and with it the whole sweep statement. */
  predicate Breaks(s: State, id: nat) {
    && id in s.rows && s.rows[id].mode.External? && Waiting(s.rows[id])
    && s.rows[id].event in s.events && s.rows[id].name in s.events[s.rows[id].event].broken
  }

  predicate SweepRuns(s: State) {
    forall id :: id in s.rows ==> !Breaks(s, id)
  }

  /** The sweep resets a row's attempts unless it exhausts the completion cycles. */
  predicate SweepResets(s: State, id: nat, at: Time) {
    SweepHits(s, id, at) && s.rows[id].cycles + 1 < HungOf(s, id).value.cycles
  }

  /** The rows of `delete_terminal_events`' NOT EXISTS test. */
  predicate NoLiveRow(rows: map<nat, Row>, event: nat) {
    forall id :: id in rows && rows[id].event == event ==> !Live(rows[id])
  }

  /** `fetch_new_events`: a prefix of the events above the cursor, in id order. */
  predicate IsBatch(events: map<nat, Event>, cursor: nat, batch: seq<Event>) {
    && (forall j :: 0 <= j < |batch| ==>
          batch[j].id in events && events[batch[j].id] == batch[j] && cursor < batch[j].id)
    && (forall i, j :: 0 <= i < j < |batch| ==> batch[i].id < batch[j].id)
    && (forall e :: e in events && cursor < e && batch != [] && e <= batch[|batch| - 1].id ==> events[e] in batch)
  }

  /** `recover_cursor`: the event of the newest delivery row, or 0. */
  function Newest(rows: map<nat, Row>): (id: nat)
    requires rows != map[]
    ensures id in rows && forall j :: j in rows ==> j <= id
  {
    assert exists id :: id in rows;
    Greatest(rows.Keys)
  }

  function RecoveredCursor(rows: map<nat, Row>): nat {
    if rows == map[] then 0 else rows[Newest(rows)].event
  }

  // ---- steps --------------------------------------------------------------------

  predicate Enabled(s: State, step: Step) {
    match step
    case Tick(to) => s.now <= to
    case Publish(e) => s.nextEvent <= e.id && WellMade(e)
    case Fetch(t, id) => t !in s.tasks && id in s.rows && Due(s.rows[id], s.now) && Spec(s, id).Some?
    case Poison(id, _) => id in s.rows && Spec(s, id).None?
    case Take(t, start) => t in s.tasks && s.tasks[t].stage.Fetched? && start <= s.now && CanLock(s, t)
    case Skip(t) => t in s.tasks && s.tasks[t].stage.Fetched? && !CanLock(s, t)
    case Succeed(t) => t in s.tasks && s.tasks[t].stage.InFlight? && s.tasks[t].row in s.rows
    case Fail(t, _, _) => t in s.tasks && s.tasks[t].stage.InFlight? && s.tasks[t].row in s.rows
    case Lose(t) => t in s.tasks && s.tasks[t].stage.InFlight? && s.tasks[t].row !in s.rows
    case Sweep(at) => at <= s.now && SweepRuns(s)
    case Retry(id) => id in s.rows && Free(s.rows[id], s.now)
    case Complete(id) => id in s.rows
    case Abandon(id) => id in s.rows
    case Retain(doomed) => NothingLive(s.rows, doomed)
    case Recover(_) => true
    case Rescan(_, from) => from < s.nextEvent
    case FetchBatch(p, batch) =>
      p in s.scheds && s.scheds[p].batch == [] && IsBatch(s.events, s.scheds[p].cursor, batch)
    case Insert(p) => p in s.scheds && CanInsert(s.scheds[p]) && s.scheds[p].batch[s.scheds[p].i].id in s.events
    case Next(p) => p in s.scheds && CanAdvance(s.scheds[p]) && s.scheds[p].i + 1 < |s.scheds[p].batch|
    case Commit(p) => p in s.scheds && CanAdvance(s.scheds[p]) && s.scheds[p].i + 1 == |s.scheds[p].batch|
    case Abort(p) => p in s.scheds
  }

  /** A holder writes back before its lease runs out or not at all. */
  predicate WellTimed(s: State, step: Step) {
    (step.Succeed? || step.Fail? || step.Lose?) ==> Flying(s, step.task)
  }

  function Apply(s: State, step: Step): State
    requires Enabled(s, step)
  {
    match step
    case Tick(to) => s.(now := to)
    case Publish(e) => s.(events := s.events[e.id := e], nextEvent := e.id + 1)
    case Fetch(t, id) => SetTask(s, t, Task(id, s.rows[id].attempts, Spec(s, id).value, Fetched))
    case Poison(id, error) => SetRow(s, id, PoisonRow(s.rows[id], error))
    case Take(t, start) => DoTake(s, t, start + s.tasks[t].target.timeout as real + s.lockBuffer)
    case Skip(t) => SetTask(s, t, s.tasks[t].(stage := Skipped))
    case Succeed(t) => DoWrite(s, t, SuccessRow(s, t))
    case Fail(t, error, at) => DoWrite(s, t, FailureRow(s, t, error, at))
    case Lose(t) => SetTask(s, t, Finished(s.tasks[t]))
    case Sweep(at) => DoSweep(s, at)
    case Retry(id) => DoRetry(s, id)
    case Complete(id) => SetRow(s, id, CompleteRow(s.rows[id], s.now))
    case Abandon(id) => SetRow(s, id, AbandonRow(s.rows[id]))
    case Retain(doomed) => DoRetain(s, doomed)
    case Recover(p) => SetSched(s, p, StartAt(RecoveredCursor(s.rows)))
    case Rescan(p, from) => SetSched(s, p, StartAt(from)).(rescanned := true)
    case FetchBatch(p, batch) => SetSched(s, p, s.scheds[p].(batch := batch, i := 0, k := 0))
    case Insert(p) => DoInsert(s, p)
    case Next(p) => SetSched(s, p, s.scheds[p].(i := s.scheds[p].i + 1, k := 0))
    case Commit(p) =>
      SetSched(s, p, s.scheds[p].(cursor := s.scheds[p].batch[s.scheds[p].i].id, batch := [], i := 0, k := 0))
    case Abort(p) => SetSched(s, p, s.scheds[p].(batch := [], i := 0, k := 0))
  }

  predicate CanLock(s: State, t: nat)
    requires t in s.tasks
  {
    s.tasks[t].row in s.rows && Lockable(s.rows[s.tasks[t].row], s.now)
  }

  predicate NothingLive(rows: map<nat, Row>, doomed: set<nat>) {
    forall e :: e in doomed ==> NoLiveRow(rows, e)
  }

  predicate CanInsert(c: Sched) {
    c.i < |c.batch| && c.k < |c.batch[c.i].plan|
  }

  predicate CanAdvance(c: Sched) {
    c.i < |c.batch| && c.k == |c.batch[c.i].plan|
  }

  function StartAt(cursor: nat): Sched {
    Sched(cursor, cursor, [], 0, 0)
  }

  function SetRow(s: State, id: nat, r: Row): State {
    s.(rows := s.rows[id := r])
  }

  function SetTask(s: State, t: nat, task: Task): State {
    s.(tasks := s.tasks[t := task])
  }

  function SetSched(s: State, p: nat, c: Sched): State {
    s.(scheds := s.scheds[p := c])
  }

  function DoTake(s: State, t: nat, until: Time): State
    requires t in s.tasks && s.tasks[t].row in s.rows
  {
    var task := s.tasks[t];
    var r := s.rows[task.row];
    s.(rows := s.rows[task.row := LockRow(r, until, s.now)],
       tasks := s.tasks[t := task.(stage := InFlight(until, task.attempts != r.attempts, Epoch(s, task.row)))],
       holders := s.holders[task.row := t])
  }

  function Finished(task: Task): Task
    requires task.stage.InFlight?
  {
    task.(stage := Written(task.stage.stale, task.stage.epoch))
  }

  function DoWrite(s: State, t: nat, r: Row): State
    requires t in s.tasks && s.tasks[t].stage.InFlight?
  {
    s.(tasks := s.tasks[t := Finished(s.tasks[t])], rows := s.rows[s.tasks[t].row := r])
  }

  function SuccessRow(s: State, t: nat): Row
    requires t in s.tasks && s.tasks[t].row in s.rows
  {
    DispatchRow(s.rows[s.tasks[t].row], s.tasks[t].target.mode, s.now)
  }

  /** The dead-letter decision uses the fetched attempt count. */
  function FailureRow(s: State, t: nat, error: string, at: Time): Row
    requires t in s.tasks && s.tasks[t].row in s.rows
  {
    FailRow(s.rows[s.tasks[t].row], error, at, s.tasks[t].attempts + 1 >= s.tasks[t].target.maxAttempts)
  }

  function DoSweep(s: State, at: Time): State {
    s.(rows := map id | id in s.rows ::
         if SweepHits(s, id, at) then SweepRow(s.rows[id], HungOf(s, id).value, at) else s.rows[id],
       epochs := map id | id in s.rows.Keys + s.epochs.Keys ::
         if SweepResets(s, id, at) then Epoch(s, id) + 1 else Epoch(s, id))
  }

  function DoRetry(s: State, id: nat): State
    requires id in s.rows
  {
    s.(rows := s.rows[id := RetryRow(s.rows[id], s.now)],
       epochs := s.epochs[id := Epoch(s, id) + 1],
       retried := s.retried + {id})
  }

  /** DELETE on events, with ON DELETE CASCADE to the rows. */
  function DoRetain(s: State, doomed: set<nat>): State {
    s.(events := map e | e in s.events && e !in doomed :: s.events[e],
       rows := map id | id in s.rows && s.rows[id].event !in doomed :: s.rows[id])
  }

  function DoInsert(s: State, p: nat): State
    requires Enabled(s, Insert(p))
  {
    var c := s.scheds[p];
    var (rows', next') := InsertRows(s.rows, s.nextRow, c.batch[c.i].id, c.batch[c.i].plan[c.k], s.now);
    s.(rows := rows', nextRow := next', scheds := s.scheds[p := c.(k := c.k + 1)],
       ensured := s.ensured + set id | id in rows' && id !in s.rows && !rows'[id].deadLetter)
  }

  // ---- runs -----------------------------------------------------------------------

  predicate IsRun(s: State, steps: seq<Step>)
    decreases |steps|
  {
    steps == [] || (Enabled(s, steps[0]) && IsRun(Apply(s, steps[0]), steps[1..]))
  }

  function Final(s: State, steps: seq<Step>): State
    requires IsRun(s, steps)
    decreases |steps|
  {
    if steps == [] then s else Final(Apply(s, steps[0]), steps[1..])
  }

  predicate Punctual(s: State, steps: seq<Step>)
    requires IsRun(s, steps)
    decreases |steps|
  {
    steps == [] || (WellTimed(s, steps[0]) && Punctual(Apply(s, steps[0]), steps[1..]))
  }

  /** A well-timed run. */
  predicate ValidRun(s: State, steps: seq<Step>) {
    IsRun(s, steps) && Punctual(s, steps)
  }
}
