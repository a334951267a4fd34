/** Runs that show the limits of the theorems to be real. */
module Witnesses {
  import opened Basics
  import opened Ordered
  import opened Table
  import opened Protocol
  import opened Leases
  import opened Progress
  import opened Cursor
  import opened Runs

  // ---- building blocks ---------------------------------------------------------------------------

  function Unused(tasks: map<nat, Task>): (u: nat)
    ensures u !in tasks
  {
    if tasks.Keys == {} then 0 else Greatest(tasks.Keys) + 1
  }

  /** The event is published and a scheduler starts. */
  lemma Published(s0: State, e: Event) returns (s: State)
    requires Init(s0) && WellMade(e) && e.id >= 1
    ensures Reachable(s)
    ensures s == s0.(events := map[e.id := e], nextEvent := e.id + 1, scheds := map[0 := StartAt(0)])
  {
    assert IsRun(s0, []) && Punctual(s0, []) && Final(s0, []) == s0;
    var s1 := Apply(s0, Publish(e));
    ReachableStep(s0, Publish(e));
    assert s1.events == map[e.id := e];
    s := Apply(s1, Recover(0));
    ReachableStep(s1, Recover(0));
    assert s.scheds == map[0 := StartAt(0)];
  }

  /** It fetches the event. */
  lemma Announced(s0: State, e: Event) returns (s: State)
    requires Init(s0) && WellMade(e) && e.id >= 1
    ensures Reachable(s)
    ensures s == s0.(events := map[e.id := e], nextEvent := e.id + 1, scheds := map[0 := Sched(0, 0, [e], 0, 0)])
  {
    var s1 := Published(s0, e);
    s := Apply(s1, FetchBatch(0, [e]));
    ReachableStep(s1, FetchBatch(0, [e]));
  }

  /** Then it runs the event's first statement. */
  lemma Scheduled(s0: State, e: Event) returns (s: State)
    requires Init(s0) && WellMade(e) && e.id >= 1 && e.plan != []
    ensures Reachable(s) && s.events == map[e.id := e] && s.nextEvent == e.id + 1
    ensures s.scheds == map[0 := Sched(0, 0, [e], 0, 1)]
    ensures s.now == s0.now && s.lockBuffer == s0.lockBuffer && s.tasks == map[] && s.epochs == map[] && s.retried == {}
    ensures s.rows == InsertRows(map[], s0.nextRow, e.id, e.plan[0], s0.now).0
    ensures s.ensured == set id | id in s.rows && !s.rows[id].deadLetter
  {
    var s1 := Announced(s0, e);
    s := Apply(s1, Insert(0));
    ReachableStep(s1, Insert(0));
  }

  /** The row of a tuple that is the only one of its name in the first statement. */
  lemma RowOf(rows: map<nat, Row>, next: nat, e: Event, j: nat, now: Time) returns (id: nat)
    requires e.plan != [] && j < |e.plan[0]| && rows == InsertRows(map[], next, e.id, e.plan[0], now).0
    requires forall x :: x in e.plan[0] && x.name == e.plan[0][j].name ==> x == e.plan[0][j]
    ensures var x := e.plan[0][j];
            id in rows && rows[id] == NewRow(e.id, x.name, x.mode, x.error, x.dead, now)
    ensures forall i :: i in rows ==> rows[i].event == e.id && rows[i].dispatchedAt.None?
  {
    InsertRowsSpec(map[], next, e.id, e.plan[0], now);
    assert e.plan[0][j] in e.plan[0];
    assert HasRow(rows, e.id, e.plan[0][j].name);
    id :| id in rows && rows[id].event == e.id && rows[id].name == e.plan[0][j].name;
    assert forall i :: i in rows ==> InsertedFrom(rows[i], e.id, e.plan[0], now);
  }

  /** Fetch and lock a due row. */
  lemma Taken(s: State, id: nat, u: nat) returns (s': State)
    requires Reachable(s) && id in s.rows && Due(s.rows[id], s.now) && Spec(s, id).Some? && u !in s.tasks
    requires s.lockBuffer >= 0.0
    ensures var t := Spec(s, id).value;
            var until := s.now + t.timeout as real + s.lockBuffer;
            && Reachable(s') && Flying(s', u)
            && s' == s.(rows := s.rows[id := LockRow(s.rows[id], until, s.now)],
                        tasks := s.tasks[u := Task(id, s.rows[id].attempts, t, InFlight(until, false, Epoch(s, id)))],
                        holders := s.holders[id := u])
  {
    var s1 := Apply(s, Fetch(u, id));
    ReachableStep(s, Fetch(u, id));
    s' := Apply(s1, Take(u, s1.now));
    ReachableStep(s1, Take(u, s1.now));
  }

  /** The row after a lock and a success at once. */
  function DeliveredRow(s: State, id: nat): Row
    requires id in s.rows && Spec(s, id).Some?
  {
    var t := Spec(s, id).value;
    DispatchRow(LockRow(s.rows[id], s.now + t.timeout as real + s.lockBuffer, s.now), t.mode, s.now)
  }

  function DoneTask(s: State, id: nat): Task
    requires id in s.rows && Spec(s, id).Some?
  {
    Task(id, s.rows[id].attempts, Spec(s, id).value, Written(false, Epoch(s, id)))
  }

  /** Fetch, lock and deliver a due row. */
  lemma Delivered(s: State, id: nat) returns (s': State)
    requires Reachable(s) && id in s.rows && Due(s.rows[id], s.now) && Spec(s, id).Some? && s.lockBuffer >= 0.0
    ensures var u := Unused(s.tasks);
            && Reachable(s')
            && s' == s.(rows := s.rows[id := DeliveredRow(s, id)], tasks := s.tasks[u := DoneTask(s, id)],
                        holders := s.holders[id := u])
  {
    var u := Unused(s.tasks);
    var s1 := Taken(s, id, u);
    s' := Apply(s1, Succeed(u));
    ReachableStep(s1, Succeed(u));
  }

  /** Fetch and lock a due row, and write a failure at once. */
  lemma Refused(s: State, id: nat) returns (s': State)
    requires Reachable(s) && id in s.rows && Due(s.rows[id], s.now) && Spec(s, id).Some? && s.lockBuffer >= 0.0
    ensures var u, t := Unused(s.tasks), Spec(s, id).value;
            var locked := LockRow(s.rows[id], s.now + t.timeout as real + s.lockBuffer, s.now);
            && Reachable(s')
            && s' == s.(rows := s.rows[id := FailRow(locked, "refused", s.now,
                                                     s.rows[id].attempts + 1 >= t.maxAttempts)],
                        tasks := s.tasks[u := DoneTask(s, id)], holders := s.holders[id := u])
  {
    var u := Unused(s.tasks);
    var s1 := Taken(s, id, u);
    s' := Apply(s1, Fail(u, "refused", s1.now));
    ReachableStep(s1, Fail(u, "refused", s1.now));
  }

  /** Wait, then sweep. */
  lemma Swept(s: State, at: Time) returns (s': State)
    requires Reachable(s) && SweepRuns(s) && s.now <= at
    ensures Reachable(s') && s' == DoSweep(s.(now := at), at)
  {
    var s1 := Apply(s, Tick(at));
    ReachableStep(s, Tick(at));
    assert s1 == s.(now := at);
    assert SweepRuns(s1) by {
      forall id | id in s1.rows ensures !Breaks(s1, id) { assert !Breaks(s, id); }
    }
    s' := Apply(s1, Sweep(at));
    ReachableStep(s1, Sweep(at));
  }

  // ---- delivered and waiting ------------------------------------------------------------------------

  predicate OnlyOfItsName(e: Event, j: nat) {
    && e.plan != [] && j < |e.plan[0]|
    && forall x :: x in e.plan[0] && x.name == e.plan[0][j].name ==> x == e.plan[0][j]
  }

  /** An external callback is delivered and waits for its completion. */
  lemma WaitingRow(s0: State, e: Event, j: nat) returns (s: State, id: nat)
    requires Init(s0) && WellMade(e) && e.id >= 1 && OnlyOfItsName(e, j) && !e.plan[0][j].dead
    requires e.plan[0][j].name in e.targets && e.targets[e.plan[0][j].name].mode.External?
    ensures Reachable(s) && s.events == map[e.id := e] && id in s.rows && id in s.ensured
    ensures s.rows[id].event == e.id && s.rows[id].name == e.plan[0][j].name && s.rows[id].mode.External?
    ensures Waiting(s.rows[id]) && Spec(s, id).Some?
  {
    var s1 := Scheduled(s0, e);
    id := RowOf(s1.rows, s0.nextRow, e, j, s0.now);
    s := Delivered(s1, id);
  }

  // ---- retried rows that had been recorded as invalid ---------------------------------------------------

  /** A success leaves a row that was inserted dead live and out of reach exactly if its target is external
      (and nobody completed or abandoned it meanwhile). */
  lemma SuccessSticksExactly(s: State, t: nat)
    requires Reachable(s) && Enabled(s, Succeed(t)) && WellTimed(s, Succeed(t)) && s.tasks[t].row !in s.ensured
    ensures var s', id := Apply(s, Succeed(t)), s.tasks[t].row;
            && (Live(s'.rows[id]) && !WillBePickedUp(s', id) <==> s.tasks[t].target.mode.External? && Live(s.rows[id]))
            && (Live(s'.rows[id]) ==> Stuck(s', id))
  {
    ReachableInv(s);
    var s', id := Apply(s, Succeed(t)), s.tasks[t].row;
    assert s.rows[id].mode.Managed? && Spec(s, id) == Some(s.tasks[t].target) && Spec(s', id) == Spec(s, id);
    if Live(s'.rows[id]) { PickedUpExactly(s', id); }
  }

  lemma Retried(s: State, id: nat) returns (s': State)
    requires Reachable(s) && id in s.rows && Free(s.rows[id], s.now)
    ensures Reachable(s') && s' == DoRetry(s, id) && Due(s'.rows[id], s'.now) && Spec(s', id) == Spec(s, id)
  {
    s' := Apply(s, Retry(id));
    ReachableStep(s, Retry(id));
  }

  /** Such a row: recorded as invalid, retried by an operator, delivered to its external receiver. */
  lemma RetriedInvalid(s0: State, e: Event, j: nat) returns (s: State, id: nat)
    requires Init(s0) && WellMade(e) && e.id >= 1 && OnlyOfItsName(e, j) && e.plan[0][j].dead
    requires e.plan[0][j].name in e.targets && e.targets[e.plan[0][j].name].mode.External?
    ensures Reachable(s) && s.events == map[e.id := e] && id in s.rows && id !in s.ensured && Stuck(s, id)
  {
    var s1 := Scheduled(s0, e);
    id := RowOf(s1.rows, s0.nextRow, e, j, s0.now);
    assert s1.rows[id].mode.Managed?;
    var s2 := Retried(s1, id);
    s := Delivered(s2, id);
    assert Spec(s, id) == Spec(s2, id) && s.rows[id] == DeliveredRow(s2, id);
  }

  // ---- a late write-back -----------------------------------------------------------------------------------

  /** Two replicas fetch the row, the second locks it after the first one's lease ran out, and the first
      writes back late: the second is in flight and the row can be locked once more. */
  lemma LateWriteHappens(s0: State, e: Event, j: nat) returns (s: State, u: nat)
    requires Init(s0) && WellMade(e) && e.id >= 1 && OnlyOfItsName(e, j) && !e.plan[0][j].dead
    requires e.plan[0][j].name in e.targets && e.targets[e.plan[0][j].name].maxAttempts >= 2
    ensures Attainable(s) && Flying(s, u) && s.tasks[u].row in s.rows && Lockable(s.rows[s.tasks[u].row], s.now)
  {
    var s1 := Scheduled(s0, e);
    var id := RowOf(s1.rows, s0.nextRow, e, j, s0.now);
    var s2 := Taken(s1, id, 0);
    var later := s2.tasks[0].stage.until + 1.0;
    var s3 := Apply(s2, Tick(later));
    ReachableStep(s2, Tick(later));
    u := 1;
    assert Due(s3.rows[id], s3.now) && Spec(s3, id) == Spec(s1, id);
    var s4 := Taken(s3, id, u);
    ReachableInv(s4);
    assert s4.tasks[0] == s2.tasks[0] && s4.now == later;
    LateWrite(s4, 0, u, "late", later);
    s := Apply(s4, Fail(0, "late", later));
    AttainableStep(s4, Fail(0, "late", later));
  }

  // ---- an abandon that is undone -----------------------------------------------------------------------------

  /** An operator abandons a row while its first attempt is in flight; the attempt fails, and the row is
      live and due again. */
  lemma AbandonUndone(s0: State, e: Event, j: nat) returns (abandoned: State, s: State, id: nat)
    requires Init(s0) && WellMade(e) && e.id >= 1 && OnlyOfItsName(e, j) && !e.plan[0][j].dead
    requires e.plan[0][j].name in e.targets && e.targets[e.plan[0][j].name].maxAttempts >= 2
    ensures Reachable(abandoned) && id in abandoned.rows && abandoned.rows[id].deadLetter
    ensures var step := Fail(0, "refused", abandoned.now);
            Reachable(s) && Enabled(abandoned, step) && WellTimed(abandoned, step) && s == Apply(abandoned, step)
    ensures id in s.rows && !s.rows[id].deadLetter && Due(s.rows[id], s.now)
  {
    var s1 := Scheduled(s0, e);
    id := RowOf(s1.rows, s0.nextRow, e, j, s0.now);
    var s2 := Taken(s1, id, 0);
    abandoned := Apply(s2, Abandon(id));
    ReachableStep(s2, Abandon(id));
    AbandonDuringFlight(s2, 0, "refused", s2.now);
    s := Apply(abandoned, Fail(0, "refused", abandoned.now));
    ReachableStep(abandoned, Fail(0, "refused", abandoned.now));
  }

  // ---- an event that retention deletes before it is scheduled ------------------------------------------------

  /** The event is gone and has no rows. */
  ghost predicate Vanished(s: State, event: nat) {
    event < s.nextEvent && event !in s.events && forall id :: id in s.rows ==> s.rows[id].event != event
  }

  lemma VanishedInsert(s: State, p: nat, event: nat)
    requires KeyInv(s) && SchedInv(s) && Vanished(s, event) && Enabled(s, Insert(p))
    ensures Vanished(DoInsert(s, p), event)
  {
    InsertsAbove(s, p);
  }

  lemma VanishedStep(s: State, step: Step, event: nat)
    requires KeyInv(s) && SchedInv(s) && Vanished(s, event) && Enabled(s, step)
    ensures Vanished(Apply(s, step), event)
  {
    if step.Insert? { VanishedInsert(s, step.sched, event); }
    else if GrowStep(step) { assert forall id :: id in Apply(s, step).rows ==> id in s.rows; }
    else { SameIdsStep(s, step); }
  }

  /** In no run does it get a row again, rescans included. */
  lemma {:induction false} VanishedForever(s: State, steps: seq<Step>, event: nat)
    requires KeyInv(s) && SchedInv(s) && Vanished(s, event) && IsRun(s, steps)
    ensures Vanished(Final(s, steps), event)
    decreases |steps|
  {
    if steps != [] {
      VanishedStep(s, steps[0], event);
      KeyInvStep(s, steps[0]);
      SchedInvStep(s, steps[0]);
      VanishedForever(Apply(s, steps[0]), steps[1..], event);
    }
  }

  /** A published event that no scheduler has reached. */
  lemma DeletedUnscheduled(s0: State, e: Event) returns (before: State, s: State)
    requires Init(s0) && WellMade(e) && e.id >= 1
    ensures Reachable(before) && before.events == map[e.id := e] && before.rows == map[]
    ensures Enabled(before, Retain({e.id})) && s == Apply(before, Retain({e.id}))
    ensures Reachable(s) && Vanished(s, e.id)
  {
    before := Published(s0, e);
    assert NothingLive(before.rows, {e.id});
    s := Apply(before, Retain({e.id}));
    ReachableStep(before, Retain({e.id}));
  }

  // ---- what a crash between two INSERT statements loses -----------------------------------------------------

  /** The event has rows, but not one of this name, and no scheduler will come to it again. */
  ghost predicate Passed(s: State, event: nat, name: string) {
    && event < s.nextEvent && !HasRow(s.rows, event, name)
    && (event in s.events ==>
          && (exists id :: id in s.rows && s.rows[id].event == event)
          && (forall id :: id in s.rows ==> event <= s.rows[id].event)
          && (forall p :: p in s.scheds ==> event <= s.scheds[p].cursor))
  }

  lemma NewRowsOf(rows: map<nat, Row>, next: nat, event: nat, entries: seq<Entry>, now: Time)
    requires forall id :: id in rows ==> id < next
    ensures var rows' := InsertRows(rows, next, event, entries, now).0;
            && (forall id :: id in rows ==> id in rows' && rows'[id] == rows[id])
            && (forall id :: id in rows' && id !in rows ==> rows'[id].event == event)
  {
    InsertRowsSpec(rows, next, event, entries, now);
    var rows' := InsertRows(rows, next, event, entries, now).0;
    forall id | id in rows' && id !in rows ensures rows'[id].event == event {
      assert InsertedFrom(rows'[id], event, entries, now);
    }
  }

  /** New rows belong to the event that is being scheduled, which is above the cursor. */
  lemma InsertsAbove(s: State, p: nat)
    requires KeyInv(s) && SchedInv(s) && Enabled(s, Insert(p))
    ensures var s', c := DoInsert(s, p), s.scheds[p];
            && (forall id :: id in s.rows ==> id in s'.rows && s'.rows[id] == s.rows[id])
            && (forall id :: id in s'.rows && id !in s.rows ==> s'.rows[id].event == c.batch[c.i].id)
            && c.cursor < c.batch[c.i].id && c.batch[c.i].id in s.events
            && s'.events == s.events && s'.nextEvent == s.nextEvent && s'.scheds == s.scheds[p := c.(k := c.k + 1)]
  {
    var s', c := DoInsert(s, p), s.scheds[p];
    assert s'.rows == InsertRows(s.rows, s.nextRow, c.batch[c.i].id, c.batch[c.i].plan[c.k], s.now).0;
    NewRowsOf(s.rows, s.nextRow, c.batch[c.i].id, c.batch[c.i].plan[c.k], s.now);
    AboveCursor(s, p);
  }

  lemma AboveCursor(s: State, p: nat)
    requires SchedInv(s) && p in s.scheds && CanInsert(s.scheds[p])
    ensures s.scheds[p].cursor < s.scheds[p].batch[s.scheds[p].i].id
  {
    assert SchedOk(s, s.scheds[p]);
  }

  lemma PassedInsert(s: State, s': State, p: nat, event: nat, name: string)
    requires Passed(s, event, name) && p in s.scheds && p in s'.scheds && s.scheds[p].i < |s.scheds[p].batch|
    requires forall id :: id in s.rows ==> id in s'.rows && s'.rows[id] == s.rows[id]
    requires var c := s.scheds[p];
             && (forall id :: id in s'.rows && id !in s.rows ==> s'.rows[id].event == c.batch[c.i].id)
             && c.cursor < c.batch[c.i].id && c.batch[c.i].id in s.events &&
                 s'.scheds == s.scheds[p := c.(k := c.k + 1)]
    requires s'.events == s.events && s'.nextEvent == s.nextEvent
    ensures Passed(s', event, name)
  {
    if event in s.events {
      var id :| id in s.rows && s.rows[id].event == event;
      assert id in s'.rows && s'.rows[id].event == event;
    }
  }

  lemma PassedGrow(s: State, step: Step, event: nat, name: string)
    requires KeyInv(s) && Passed(s, event, name) && Enabled(s, step) && GrowStep(step) && !step.Insert?
    ensures Passed(Apply(s, step), event, name)
  {
    var s' := Apply(s, step);
    assert forall id :: id in s'.rows ==> id in s.rows && s'.rows[id] == s.rows[id];
    if event in s'.events {
      assert event in s.events;
      var id :| id in s.rows && s.rows[id].event == event;
      assert id in s'.rows;
    }
  }

  lemma PassedSame(s: State, step: Step, event: nat, name: string)
    requires KeyInv(s) && SchedInv(s) && Passed(s, event, name) && Enabled(s, step) && !GrowStep(step) && !step.Rescan?
    ensures Passed(Apply(s, step), event, name)
  {
    var s' := Apply(s, step);
    SameIdsStep(s, step);
    if event in s'.events {
      var id :| id in s.rows && s.rows[id].event == event;
      assert id in s'.rows && s'.rows[id].event == event;
      forall p | p in s'.scheds ensures event <= s'.scheds[p].cursor { PassedSched(s, step, event, p); }
    }
  }

  lemma PassedSched(s: State, step: Step, event: nat, p: nat)
    requires SchedInv(s) && Enabled(s, step) && !step.Rescan? && p in Apply(s, step).scheds
    requires forall q :: q in s.scheds ==> event <= s.scheds[q].cursor
    requires s.rows != map[] && forall id :: id in s.rows ==> event <= s.rows[id].event
    ensures event <= Apply(s, step).scheds[p].cursor
  {
    if !MovesSched(step) || p != step.sched { OthersStay(s, step, p); }
    else { PassedMover(s, step, event); }
  }

  lemma PassedMover(s: State, step: Step, event: nat)
    requires SchedInv(s) && Enabled(s, step) && MovesSched(step) && !step.Rescan?
    requires forall q :: q in s.scheds ==> event <= s.scheds[q].cursor
    requires s.rows != map[] && forall id :: id in s.rows ==> event <= s.rows[id].event
    ensures step.sched in Apply(s, step).scheds && event <= Apply(s, step).scheds[step.sched].cursor
  {
    if step.Commit? { assert BatchOk(s, s.scheds[step.sched]); }
  }

  lemma PassedStep(s: State, step: Step, event: nat, name: string)
    requires KeyInv(s) && SchedInv(s) && Passed(s, event, name) && Enabled(s, step) && !step.Rescan?
    ensures Passed(Apply(s, step), event, name)
  {
    if step.Insert? { PassedInsertion(s, step.sched, event, name); }
    else if GrowStep(step) { PassedGrow(s, step, event, name); }
    else { PassedSame(s, step, event, name); }
  }

  lemma PassedInsertion(s: State, p: nat, event: nat, name: string)
    requires KeyInv(s) && SchedInv(s) && Passed(s, event, name) && Enabled(s, Insert(p))
    ensures Passed(DoInsert(s, p), event, name)
  {
    InsertsAbove(s, p);
    PassedInsert(s, DoInsert(s, p), p, event, name);
  }

  predicate NoRescan(steps: seq<Step>) {
    forall i :: 0 <= i < |steps| ==> !steps[i].Rescan?
  }

  /** Without a rescan it stays so, whatever replicas restart and whatever retention deletes. */
  lemma {:induction false} NeverRecorded(s: State, steps: seq<Step>, event: nat, name: string)
    requires KeyInv(s) && SchedInv(s) && Passed(s, event, name) && IsRun(s, steps) && NoRescan(steps)
    ensures !HasRow(Final(s, steps).rows, event, name)
    decreases |steps|
  {
    if steps != [] {
      var step := steps[0];
      PassedStep(s, step, event, name);
      KeyInvStep(s, step);
      SchedInvStep(s, step);
      assert forall i :: 0 <= i < |steps[1..]| ==> steps[1..][i] == steps[i + 1];
      NeverRecorded(Apply(s, step), steps[1..], event, name);
    }
  }

  /** The only replica crashes after the first of an event's two statements and restarts: its cursor is past
      the event, and the event's second statement is not run before a rescan. */
  lemma CrashBetweenStatements(s0: State, e: Event, j: nat) returns (s: State)
    requires Init(s0) && WellMade(e) && e.id >= 1 && |e.plan| == 2 && e.plan[0] != [] && j < |e.plan[1]|
    requires forall x :: x in e.plan[0] ==> x.name != e.plan[1][j].name
    ensures Reachable(s) && s.events == map[e.id := e] && s.scheds == map[0 := StartAt(e.id)]
    ensures Passed(s, e.id, e.plan[1][j].name)
  {
    var s1 := Scheduled(s0, e);
    FirstStatementOnly(s1.rows, s0.nextRow, e, j, s0.now);
    s := Apply(s1, Recover(0));
    ReachableStep(s1, Recover(0));
    assert s.scheds == map[0 := StartAt(e.id)];
  }

  lemma FirstStatementOnly(rows: map<nat, Row>, next: nat, e: Event, j: nat, now: Time)
    requires |e.plan| == 2 && e.plan[0] != [] && j < |e.plan[1]|
    requires rows == InsertRows(map[], next, e.id, e.plan[0], now).0
    requires forall x :: x in e.plan[0] ==> x.name != e.plan[1][j].name
    ensures rows != map[] && RecoveredCursor(rows) == e.id && !HasRow(rows, e.id, e.plan[1][j].name)
    ensures (exists id :: id in rows && rows[id].event == e.id) && (forall id :: id in rows ==> rows[id].event == e.id)
  {
    InsertRowsSpec(map[], next, e.id, e.plan[0], now);
    assert e.plan[0][0] in e.plan[0];
    assert HasRow(rows, e.id, e.plan[0][0].name);
    assert forall id :: id in rows ==> InsertedFrom(rows[id], e.id, e.plan[0], now);
  }
}
