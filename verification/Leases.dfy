/** Mutual exclusion: in every well-timed run a row has at most one holder in flight. */
module Leases {
  import opened Basics
  import opened Table
  import opened Protocol

  /** Keys are consistent; row and event ids are never reused. */
  ghost predicate Tidy(s: State) {
    && (forall id :: id in s.rows ==> id < s.nextRow && s.rows[id].event in s.events)
    && 0 < s.nextEvent
    && (forall e :: e in s.events ==> s.events[e].id == e && 0 < e < s.nextEvent)
    && (forall t :: t in s.tasks ==> s.tasks[t].row < s.nextRow)
    && (forall id :: id in s.epochs ==> id < s.nextRow)
    && (forall id :: id in s.ensured ==> id < s.nextRow)
    && (forall id :: id in s.retried ==> id < s.nextRow)
  }

  /** The target a task carries is still the one its row's event describes. */
  ghost predicate Current(s: State) {
    forall t :: t in s.tasks && s.tasks[t].row in s.rows ==> Spec(s, s.tasks[t].row) == Some(s.tasks[t].target)
  }

  /** A task in flight is the last one that locked its row. */
  ghost predicate Holding(s: State) {
    forall t :: Flying(s, t) ==> s.tasks[t].row in s.holders && s.holders[s.tasks[t].row] == t
  }

  /** While a holder is in flight its row, unless deleted, carries that holder's lease. */
  ghost predicate Leased(s: State) {
    forall t :: Flying(s, t) && s.tasks[t].row in s.rows ==> HoldsLease(s, t)
  }

  ghost predicate HoldsLease(s: State, t: nat)
    requires t in s.tasks && s.tasks[t].stage.InFlight? && s.tasks[t].row in s.rows
  {
    var r := s.rows[s.tasks[t].row];
    && r.lockedUntil == Some(s.tasks[t].stage.until)
    && r.dispatchedAt.None?
    && s.tasks[t].stage.epoch == Epoch(s, s.tasks[t].row)
    && (!s.tasks[t].stage.stale ==> r.attempts == s.tasks[t].attempts + 1)
  }

  ghost predicate KeyInv(s: State) {
    Tidy(s) && Current(s)
  }

  ghost predicate Sound(s: State) {
    forall e :: e in s.events ==> WellMade(s.events[e])
  }

  ghost predicate LeaseInv(s: State) {
    Holding(s) && Leased(s)
  }

  /** What one tuple of an INSERT statement does. */
  lemma InsertOne(rows: map<nat, Row>, next: nat, event: nat, e: Entry, now: Time)
    requires forall id :: id in rows ==> id < next
    ensures var rows1 := InsertRow(rows, next, event, e, now);
            && rows.Keys <= rows1.Keys <= rows.Keys + {next}
            && (forall id :: id in rows ==> rows1[id] == rows[id])
            && (next in rows1 ==> rows1[next] == NewRow(event, e.name, e.mode, e.error, e.dead, now))
            && HasRow(rows1, event, e.name)
            && (UniqueKeys(rows) ==> UniqueKeys(rows1))
  {
    var rows1 := InsertRow(rows, next, event, e, now);
    if !HasRow(rows, event, e.name) {
      assert next in rows1 && rows1[next].event == event && rows1[next].name == e.name;
      assert forall id :: id in rows ==> rows[id].event != event || rows[id].name != e.name;
    }
  }

  /** What an INSERT statement guarantees about the table. */
  lemma {:induction false} InsertRowsSpec(rows: map<nat, Row>, next: nat, event: nat, entries: seq<Entry>, now: Time)
    requires forall id :: id in rows ==> id < next
    ensures var (rows', next') := InsertRows(rows, next, event, entries, now);
            && next <= next' && rows.Keys <= rows'.Keys
            && (forall id :: id in rows ==> rows'[id] == rows[id])
            && (forall id :: id in rows' ==> id < next')
            && (forall id :: id in rows' && id !in rows ==> next <= id && InsertedFrom(rows'[id], event, entries, now))
            && (forall e :: e in entries ==> HasRow(rows', event, e.name))
            && (UniqueKeys(rows) ==> UniqueKeys(rows'))
    decreases |entries|
  {
    if entries != [] {
      var e, rest := entries[0], entries[1..];
      var rows1 := InsertRow(rows, next, event, e, now);
      InsertOne(rows, next, event, e, now);
      InsertRowsSpec(rows1, next + 1, event, rest, now);
      var rows' := InsertRows(rows1, next + 1, event, rest, now).0;
      RowStays(rows1, rows', event, e.name);
      forall x | x in entries ensures x == e || x in rest { }
      forall id | id in rows' && id !in rows ensures next <= id && InsertedFrom(rows'[id], event, entries, now) {
        if id in rows1 {
          assert e in entries && rows'[id] == NewRow(event, e.name, e.mode, e.error, e.dead, now);
        } else {
          var x :| x in rest && rows'[id] == NewRow(event, x.name, x.mode, x.error, x.dead, now);
          assert x in entries;
        }
      }
    }
  }

  lemma RowStays(rows: map<nat, Row>, rows': map<nat, Row>, event: nat, name: string)
    requires HasRow(rows, event, name) && rows.Keys <= rows'.Keys && forall id :: id in rows ==> rows'[id] == rows[id]
    ensures HasRow(rows', event, name)
  {
    var id :| id in rows && rows[id].event == event && rows[id].name == name;
    assert id in rows' && rows'[id] == rows[id];
  }

  ghost predicate InsertedFrom(r: Row, event: nat, entries: seq<Entry>, now: Time) {
    exists e :: e in entries && r == NewRow(event, e.name, e.mode, e.error, e.dead, now)
  }

  /** UNIQUE (event_id, callback_name). */
  ghost predicate UniqueKeys(rows: map<nat, Row>) {
    forall i, j :: i in rows && j in rows && rows[i].event == rows[j].event && rows[i].name == rows[j].name ==> i == j
  }

  /** The rows are the same ones; only delivery progress may have changed. */
  ghost predicate SameKeys(rows: map<nat, Row>, rows': map<nat, Row>) {
    && rows.Keys == rows'.Keys
    && (forall id :: id in rows ==>
          rows[id].event == rows'[id].event && rows[id].name == rows'[id].name && rows[id].mode == rows'[id].mode)
  }

  ghost predicate SameTasks(tasks: map<nat, Task>, tasks': map<nat, Task>) {
    && tasks.Keys == tasks'.Keys
    && (forall t :: t in tasks ==> tasks'[t].row == tasks[t].row && tasks'[t].target == tasks[t].target)
  }

  /** No row, event or task appeared or disappeared. */
  ghost predicate SameIds(s: State, s': State) {
    && SameKeys(s.rows, s'.rows) && SameTasks(s.tasks, s'.tasks)
    && s'.events == s.events && s'.nextEvent == s.nextEvent && s'.nextRow == s.nextRow
    && s'.ensured == s.ensured && s'.retried <= s.retried + s.rows.Keys
    && s'.epochs.Keys <= s.epochs.Keys + s.rows.Keys
  }

  // ---- groups of steps -------------------------------------------------------------------

  predicate DispatchStep(step: Step) {
    step.Take? || step.Skip? || step.Succeed? || step.Fail? || step.Lose?
  }

  predicate OperatorStep(step: Step) {
    step.Poison? || step.Complete? || step.Abandon? || step.Retry? || step.Sweep?
  }

  predicate GrowStep(step: Step) {
    step.Publish? || step.Fetch? || step.Insert? || step.Retain?
  }

  /** Steps that leave rows, events and tasks as they are. */
  predicate IdleStep(step: Step) {
    step.Tick? || step.Recover? || step.Rescan? || step.FetchBatch? || step.Next? || step.Commit? || step.Abort?
  }

  lemma IdleStepSpec(s: State, step: Step)
    requires Enabled(s, step) && IdleStep(step)
    ensures var s' := Apply(s, step);
            s' == s.(now := s'.now, scheds := s'.scheds, rescanned := s'.rescanned) && s.now <= s'.now
  {
  }

  // ---- ids and targets ---------------------------------------------------------------------

  lemma KeysKept(s: State, s': State)
    requires KeyInv(s) && SameIds(s, s')
    ensures KeyInv(s')
  {
  }

  lemma RowKeysKept(rows: map<nat, Row>, id: nat, r: Row)
    requires id in rows && r.event == rows[id].event && r.name == rows[id].name && r.mode == rows[id].mode
    ensures SameKeys(rows, rows[id := r])
  {
  }

  lemma SameIdsDispatch(s: State, step: Step)
    requires Enabled(s, step) && DispatchStep(step)
    ensures SameIds(s, Apply(s, step))
  {
    var s', id := Apply(s, step), s.tasks[step.task].row;
    if id in s.rows { RowKeysKept(s.rows, id, s'.rows[id]); }
  }

  lemma SameIdsSweep(s: State, at: Time)
    ensures SameIds(s, DoSweep(s, at))
  {
  }

  lemma SameIdsOperator(s: State, step: Step)
    requires Enabled(s, step) && OperatorStep(step)
    ensures SameIds(s, Apply(s, step))
  {
    if step.Sweep? { SameIdsSweep(s, step.at); }
    else { RowKeysKept(s.rows, step.row, Apply(s, step).rows[step.row]); }
  }

  /** Only scheduling, retention and fetches add or remove anything. */
  lemma SameIdsStep(s: State, step: Step)
    requires Enabled(s, step) && !GrowStep(step)
    ensures SameIds(s, Apply(s, step))
  {
    if DispatchStep(step) { SameIdsDispatch(s, step); }
    else if OperatorStep(step) { SameIdsOperator(s, step); }
    else { IdleStepSpec(s, step); }
  }

  lemma KeyInvInsert(s: State, p: nat)
    requires KeyInv(s) && Enabled(s, Insert(p))
    ensures KeyInv(DoInsert(s, p))
  {
    var s', c := DoInsert(s, p), s.scheds[p];
    InsertRowsSpec(s.rows, s.nextRow, c.batch[c.i].id, c.batch[c.i].plan[c.k], s.now);
    assert Tidy(s');
  }

  lemma KeyInvRetain(s: State, doomed: set<nat>)
    requires KeyInv(s)
    ensures KeyInv(DoRetain(s, doomed))
  {
  }

  lemma KeyInvFetch(s: State, t: nat, task: Task)
    requires KeyInv(s) && task.row in s.rows && Spec(s, task.row) == Some(task.target)
    ensures KeyInv(SetTask(s, t, task))
  {
  }

  lemma KeyInvPublish(s: State, e: Event, s': State)
    requires KeyInv(s) && s.nextEvent <= e.id && WellMade(e)
    requires s' == s.(events := s.events[e.id := e], nextEvent := e.id + 1)
    ensures KeyInv(s')
  {
  }

  lemma KeyInvGrow(s: State, step: Step)
    requires KeyInv(s) && Enabled(s, step) && GrowStep(step)
    ensures KeyInv(Apply(s, step))
  {
    if step.Insert? { KeyInvInsert(s, step.sched); }
    else if step.Retain? { KeyInvRetain(s, step.doomed); }
    else if step.Fetch? { KeyInvFetch(s, step.task, Apply(s, step).tasks[step.task]); }
    else { KeyInvPublish(s, step.event, Apply(s, step)); }
  }

  lemma KeyInvStep(s: State, step: Step)
    requires KeyInv(s) && Enabled(s, step)
    ensures KeyInv(Apply(s, step))
  {
    if GrowStep(step) { KeyInvGrow(s, step); }
    else { SameIdsStep(s, step); KeysKept(s, Apply(s, step)); }
  }

  lemma SoundStep(s: State, step: Step)
    requires Sound(s) && Enabled(s, step)
    ensures Sound(Apply(s, step))
  {
    if step.Insert? || step.Fetch? { assert Apply(s, step).events == s.events; }
    else if !step.Publish? && !step.Retain? { SameIdsStep(s, step); }
  }

  // ---- leases --------------------------------------------------------------------------------

  ghost predicate SameLease(r: Row, r': Row) {
    r'.lockedUntil == r.lockedUntil && r'.dispatchedAt == r.dispatchedAt && r'.attempts == r.attempts
  }

  /** Statements other than lock and write-back leave the leases of held rows alone. */
  lemma QuietStep(s: State, s': State)
    requires LeaseInv(s)
    requires s.now <= s'.now && s'.tasks == s.tasks && s'.holders == s.holders
    requires forall t :: Flying(s, t) && s.tasks[t].row in s'.rows ==>
               && s.tasks[t].row in s.rows
               && SameLease(s.rows[s.tasks[t].row], s'.rows[s.tasks[t].row])
               && Epoch(s', s.tasks[t].row) == Epoch(s, s.tasks[t].row)
    ensures LeaseInv(s')
  {
    assert forall t :: Flying(s', t) ==> Flying(s, t);
  }

  lemma TakeStep(s: State, t: nat, until: Time)
    requires LeaseInv(s) && t in s.tasks && CanLock(s, t)
    ensures LeaseInv(DoTake(s, t, until))
  {
    var s', id := DoTake(s, t, until), s.tasks[t].row;
    assert forall u :: Flying(s', u) && u != t ==> Flying(s, u) && s.tasks[u].row != id;
  }

  lemma SetTaskStep(s: State, t: nat, task: Task)
    requires LeaseInv(s) && !task.stage.InFlight?
    ensures LeaseInv(SetTask(s, t, task))
  {
    assert forall u :: Flying(SetTask(s, t, task), u) ==> Flying(s, u) && u != t;
  }

  lemma WriteStep(s: State, t: nat, r: Row)
    requires LeaseInv(s) && Flying(s, t) && s.tasks[t].row in s.rows
    ensures LeaseInv(DoWrite(s, t, r))
  {
    assert forall u :: Flying(DoWrite(s, t, r), u) ==> Flying(s, u) && u != t;
  }

  lemma LeaseInvDispatch(s: State, step: Step)
    requires LeaseInv(s) && Enabled(s, step) && WellTimed(s, step) && DispatchStep(step)
    ensures LeaseInv(Apply(s, step))
  {
    var t := step.task;
    if step.Take? { TakeStep(s, t, step.start + s.tasks[t].target.timeout as real + s.lockBuffer); }
    else if step.Skip? || step.Lose? { SetTaskStep(s, t, Apply(s, step).tasks[t]); }
    else { WriteStep(s, t, Apply(s, step).rows[s.tasks[t].row]); }
  }

  lemma UpdateStep(s: State, id: nat, s': State)
    requires KeyInv(s) && LeaseInv(s) && id in s.rows && id in s'.rows
    requires s'.rows == s.rows[id := s'.rows[id]] && s'.tasks == s.tasks && s'.holders == s.holders && s'.now == s.now
    requires forall j :: j != id ==> Epoch(s', j) == Epoch(s, j)
    requires || (SameLease(s.rows[id], s'.rows[id]) && Epoch(s', id) == Epoch(s, id))
             || Spec(s, id).None? || Free(s.rows[id], s.now)
    ensures LeaseInv(s')
  {
    QuietStep(s, s');
  }

  lemma LeaseInvOperator(s: State, step: Step)
    requires KeyInv(s) && LeaseInv(s) && Enabled(s, step) && OperatorStep(step)
    ensures LeaseInv(Apply(s, step))
  {
    var s' := Apply(s, step);
    if step.Sweep? { QuietStep(s, s'); } else { UpdateStep(s, step.row, s'); }
  }

  lemma LeaseInvInsert(s: State, p: nat)
    requires KeyInv(s) && LeaseInv(s) && Enabled(s, Insert(p))
    ensures LeaseInv(DoInsert(s, p))
  {
    var c := s.scheds[p];
    InsertRowsSpec(s.rows, s.nextRow, c.batch[c.i].id, c.batch[c.i].plan[c.k], s.now);
    QuietStep(s, DoInsert(s, p));
  }

  lemma LeaseInvGrow(s: State, step: Step)
    requires KeyInv(s) && LeaseInv(s) && Enabled(s, step) && GrowStep(step)
    ensures LeaseInv(Apply(s, step))
  {
    if step.Fetch? { SetTaskStep(s, step.task, Apply(s, step).tasks[step.task]); }
    else if step.Insert? { LeaseInvInsert(s, step.sched); }
    else { QuietStep(s, Apply(s, step)); }
  }

  /** Every step of a well-timed run keeps the leases. */
  lemma LeaseInvStep(s: State, step: Step)
    requires KeyInv(s) && LeaseInv(s) && Enabled(s, step) && WellTimed(s, step)
    ensures LeaseInv(Apply(s, step))
  {
    if DispatchStep(step) { LeaseInvDispatch(s, step); }
    else if OperatorStep(step) { LeaseInvOperator(s, step); }
    else if GrowStep(step) { LeaseInvGrow(s, step); }
    else { IdleStepSpec(s, step); QuietStep(s, Apply(s, step)); }
  }

  lemma {:induction false} LeaseInvRun(s: State, steps: seq<Step>)
    requires KeyInv(s) && LeaseInv(s) && ValidRun(s, steps)
    ensures KeyInv(Final(s, steps)) && LeaseInv(Final(s, steps))
    decreases |steps|
  {
    if steps != [] {
      KeyInvStep(s, steps[0]);
      LeaseInvStep(s, steps[0]);
      LeaseInvRun(Apply(s, steps[0]), steps[1..]);
    }
  }
}
