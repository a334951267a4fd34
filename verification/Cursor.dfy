/** The scheduler cursor: what the in-memory and the recovered cursor promise about delivery rows. */
module Cursor {
  import opened Basics
  import opened Table
  import opened Protocol
  import opened Leases

  // ---- scheduled events --------------------------------------------------------------

  /** The first `k` statements of the event's plan have had their effect. */
  ghost predicate Done(rows: map<nat, Row>, e: Event, k: nat) {
    forall i, j :: 0 <= i < k && i < |e.plan| && 0 <= j < |e.plan[i]| ==> HasRow(rows, e.id, e.plan[i][j].name)
  }

  /** Every reported callback name of the event has its row. */
  ghost predicate FullyScheduled(rows: map<nat, Row>, e: Event) {
    Done(rows, e, |e.plan|)
  }

  /** Every valid callback of the event has its row. */
  ghost predicate ValidDone(rows: map<nat, Row>, e: Event) {
    forall i, j :: 0 <= i < |e.plan| && 0 <= j < |e.plan[i]| && !e.plan[i][j].dead ==>
        HasRow(rows, e.id, e.plan[i][j].name)
  }

  ghost predicate Reported(e: Event, name: string) {
    exists i, j :: 0 <= i < |e.plan| && 0 <= j < |e.plan[i]| && e.plan[i][j].name == name
  }

  // ---- the invariants -----------------------------------------------------------------

  /** One scheduler against the tables. */
  ghost predicate BatchOk(s: State, c: Sched) {
    && c.cursor < s.nextEvent
    && (c.batch == [] ==> c.i == 0 && c.k == 0)
    && (c.batch != [] ==> c.i < |c.batch| && c.k <= |c.batch[c.i].plan|)
    && (forall j :: 0 <= j < |c.batch| ==>
          && c.cursor < c.batch[j].id < s.nextEvent
          && (c.batch[j].id in s.events ==> s.events[c.batch[j].id] == c.batch[j]))
    && (forall i, j :: 0 <= i < j < |c.batch| ==> c.batch[i].id < c.batch[j].id)
    && (forall e :: e in s.events && c.cursor < e && c.batch != [] && e <= c.batch[|c.batch| - 1].id ==>
        s.events[e] in c.batch)
  }

  /** The events the current pass has been through. */
  ghost predicate PassOk(s: State, c: Sched) {
    && (forall j :: 0 <= j < c.i && j < |c.batch| && c.batch[j].id in s.events ==> FullyScheduled(s.rows, c.batch[j]))
    && (c.i < |c.batch| && c.batch[c.i].id in s.events ==> Done(s.rows, c.batch[c.i], c.k))
  }

  /** Commit point: every surviving event the cursor has passed is completely scheduled. */
  ghost predicate Committed(s: State, c: Sched) {
    forall e :: e in s.events && c.start < e <= c.cursor ==> FullyScheduled(s.rows, s.events[e])
  }

  ghost predicate SchedOk(s: State, c: Sched) {
    BatchOk(s, c) && PassOk(s, c) && Committed(s, c)
  }

  ghost predicate SchedInv(s: State) {
    forall p :: p in s.scheds ==> SchedOk(s, s.scheds[p])
  }

  /** At most one row per event and name, and only for reported names. */
  ghost predicate RowInv(s: State) {
    && UniqueKeys(s.rows)
    && (forall id :: id in s.rows && s.rows[id].event in s.events ==>
        Reported(s.events[s.rows[id].event], s.rows[id].name))
  }

  // ---- what a step keeps -----------------------------------------------------------------

  /** Surviving events are the same and keep their rows; new events have new ids. */
  ghost predicate Grown(s: State, s': State) {
    && s.nextEvent <= s'.nextEvent
    && (forall e :: e in s'.events ==> (e in s.events && s'.events[e] == s.events[e]) || s.nextEvent <= e)
    && (forall e, name :: e in s'.events && HasRow(s.rows, e, name) ==> HasRow(s'.rows, e, name))
  }

  lemma KeysGiveRows(rows: map<nat, Row>, rows': map<nat, Row>, event: nat, name: string)
    requires forall id :: id in rows && rows[id].event == event ==>
               id in rows' && rows'[id].event == event && rows'[id].name == rows[id].name
    requires HasRow(rows, event, name)
    ensures HasRow(rows', event, name)
  {
    var id :| id in rows && rows[id].event == event && rows[id].name == name;
    assert id in rows' && rows'[id].event == event && rows'[id].name == name;
  }

  lemma GrownStep(s: State, step: Step)
    requires KeyInv(s) && Enabled(s, step)
    ensures Grown(s, Apply(s, step))
  {
    var s' := Apply(s, step);
    if step.Insert? {
      var c := s.scheds[step.sched];
      InsertRowsSpec(s.rows, s.nextRow, c.batch[c.i].id, c.batch[c.i].plan[c.k], s.now);
    } else if !GrowStep(step) {
      SameIdsStep(s, step);
    }
    forall e, name | e in s'.events && HasRow(s.rows, e, name) ensures HasRow(s'.rows, e, name) {
      KeysGiveRows(s.rows, s'.rows, e, name);
    }
  }

  lemma DoneKept(s: State, s': State, e: Event, k: nat)
    requires Grown(s, s') && e.id in s'.events && Done(s.rows, e, k)
    ensures Done(s'.rows, e, k)
  {
  }

  /** A scheduler that does not move stays in order whatever the others do. */
  lemma SchedKept(s: State, s': State, c: Sched)
    requires KeyInv(s) && KeyInv(s') && Grown(s, s') && SchedOk(s, c)
    ensures SchedOk(s', c)
  {
    assert BatchOk(s', c);
    forall j | 0 <= j < c.i && j < |c.batch| && c.batch[j].id in s'.events ensures FullyScheduled(s'.rows, c.batch[j]) {
      DoneKept(s, s', c.batch[j], |c.batch[j].plan|);
    }
    if c.i < |c.batch| && c.batch[c.i].id in s'.events { DoneKept(s, s', c.batch[c.i], c.k); }
    forall e | e in s'.events && c.start < e <= c.cursor ensures FullyScheduled(s'.rows, s'.events[e]) {
      DoneKept(s, s', s.events[e], |s.events[e].plan|);
    }
  }

  // ---- the scheduler that moves ---------------------------------------------------------------

  /** An INSERT completes its statement. */
  lemma InsertCompletes(rows: map<nat, Row>, next: nat, e: Event, k: nat, now: Time)
    requires forall id :: id in rows ==> id < next
    requires k < |e.plan| && Done(rows, e, k)
    ensures Done(InsertRows(rows, next, e.id, e.plan[k], now).0, e, k + 1)
  {
    InsertRowsSpec(rows, next, e.id, e.plan[k], now);
    var rows' := InsertRows(rows, next, e.id, e.plan[k], now).0;
    forall i, j | 0 <= i < k + 1 && i < |e.plan| && 0 <= j < |e.plan[i]|
      ensures HasRow(rows', e.id, e.plan[i][j].name)
    {
      if i == k { assert e.plan[k][j] in e.plan[k]; } else { KeysGiveRows(rows, rows', e.id, e.plan[i][j].name); }
    }
  }

  lemma StatementDone(s: State, s': State, c: Sched)
    requires KeyInv(s) && KeyInv(s') && Grown(s, s') && SchedOk(s, c) && CanInsert(c)
    requires Done(s'.rows, c.batch[c.i], c.k + 1)
    ensures SchedOk(s', c.(k := c.k + 1))
  {
    SchedKept(s, s', c);
  }

  lemma DoInsertMoves(s: State, p: nat)
    requires Enabled(s, Insert(p)) && SchedOk(s, s.scheds[p]) && KeyInv(s)
    requires KeyInv(DoInsert(s, p)) && Grown(s, DoInsert(s, p))
    ensures SchedOk(DoInsert(s, p), DoInsert(s, p).scheds[p])
  {
    var c, s' := s.scheds[p], DoInsert(s, p);
    assert s'.rows == InsertRows(s.rows, s.nextRow, c.batch[c.i].id, c.batch[c.i].plan[c.k], s.now).0;
    assert s'.scheds[p] == c.(k := c.k + 1);
    assert Done(s'.rows, c.batch[c.i], c.k + 1) by { InsertCompletes(s.rows, s.nextRow, c.batch[c.i], c.k, s.now); }
    StatementDone(s, s', c);
  }

  lemma InsertMoves(s: State, p: nat)
    requires KeyInv(s) && Enabled(s, Insert(p)) && SchedOk(s, s.scheds[p])
    ensures var s' := Apply(s, Insert(p)); SchedOk(s', s'.scheds[p])
  {
    GrownStep(s, Insert(p));
    KeyInvStep(s, Insert(p));
    assert Apply(s, Insert(p)) == DoInsert(s, p);
    DoInsertMoves(s, p);
  }

  lemma NextMoves(s: State, p: nat)
    requires Enabled(s, Next(p)) && SchedOk(s, s.scheds[p])
    ensures var s' := Apply(s, Next(p)); SchedOk(s', s'.scheds[p])
  {
    var s', c := Apply(s, Next(p)), s.scheds[p];
    var c' := s'.scheds[p];
    forall j | 0 <= j < c'.i && j < |c'.batch| && c'.batch[j].id in s'.events
      ensures FullyScheduled(s'.rows, c'.batch[j])
    {
      if j == c.i { assert Done(s.rows, c.batch[c.i], c.k); }
    }
  }

  lemma CommitMoves(s: State, p: nat)
    requires KeyInv(s) && Enabled(s, Commit(p)) && SchedOk(s, s.scheds[p])
    ensures var s' := Apply(s, Commit(p)); SchedOk(s', s'.scheds[p])
  {
    var s', c := Apply(s, Commit(p)), s.scheds[p];
    var c' := s'.scheds[p];
    forall e | e in s'.events && c'.start < e <= c'.cursor ensures FullyScheduled(s'.rows, s'.events[e]) {
      if c.cursor < e { PassedInBatch(s, c, e); }
    }
  }

  /** An event at or below the last of a finished batch was in it. */
  lemma PassedInBatch(s: State, c: Sched, e: nat)
    requires KeyInv(s) && SchedOk(s, c) && CanAdvance(c) && c.i + 1 == |c.batch|
    requires e in s.events && c.cursor < e <= c.batch[c.i].id
    ensures FullyScheduled(s.rows, s.events[e])
  {
    var j :| 0 <= j < |c.batch| && c.batch[j] == s.events[e];
    assert c.batch[j].id == e;
  }

  lemma StartMoves(s: State, step: Step)
    requires KeyInv(s) && Enabled(s, step) && (step.Recover? || step.Rescan?)
    ensures var s' := Apply(s, step); SchedOk(s', s'.scheds[step.sched])
  {
  }

  lemma FetchMoves(s: State, p: nat, batch: seq<Event>)
    requires KeyInv(s) && Enabled(s, FetchBatch(p, batch)) && SchedOk(s, s.scheds[p])
    ensures var s' := Apply(s, FetchBatch(p, batch)); SchedOk(s', s'.scheds[p])
  {
  }

  lemma AbortMoves(s: State, p: nat)
    requires Enabled(s, Abort(p)) && SchedOk(s, s.scheds[p])
    ensures var s' := Apply(s, Abort(p)); SchedOk(s', s'.scheds[p])
  {
  }

  predicate MovesSched(step: Step) {
    step.Recover? || step.Rescan? || step.FetchBatch? || step.Insert? || step.Next? || step.Commit? || step.Abort?
  }

  lemma MoverOk(s: State, step: Step)
    requires KeyInv(s) && SchedInv(s) && Enabled(s, step) && MovesSched(step)
    ensures var s' := Apply(s, step); step.sched in s'.scheds && SchedOk(s', s'.scheds[step.sched])
  {
    if step.Insert? { InsertMoves(s, step.sched); }
    else if step.Recover? || step.Rescan? { StartMoves(s, step); }
    else { PassMoves(s, step); }
  }

  lemma PassMoves(s: State, step: Step)
    requires KeyInv(s) && SchedInv(s) && Enabled(s, step)
    requires step.FetchBatch? || step.Next? || step.Commit? || step.Abort?
    ensures var s' := Apply(s, step); step.sched in s'.scheds && SchedOk(s', s'.scheds[step.sched])
  {
    if step.Next? { NextMoves(s, step.sched); }
    else if step.Commit? { CommitMoves(s, step.sched); }
    else if step.Abort? { AbortMoves(s, step.sched); }
    else { FetchMoves(s, step.sched, step.batch); }
  }

  lemma OthersStay(s: State, step: Step, p: nat)
    requires Enabled(s, step) && p in Apply(s, step).scheds && (MovesSched(step) ==> p != step.sched)
    ensures p in s.scheds && Apply(s, step).scheds[p] == s.scheds[p]
  {
  }

  lemma SchedOkStep(s: State, step: Step, p: nat)
    requires KeyInv(s) && SchedInv(s) && Enabled(s, step) && p in Apply(s, step).scheds
    requires KeyInv(Apply(s, step)) && Grown(s, Apply(s, step))
    ensures SchedOk(Apply(s, step), Apply(s, step).scheds[p])
  {
    if MovesSched(step) && p == step.sched { MoverOk(s, step); }
    else { OthersStay(s, step, p); SchedKept(s, Apply(s, step), s.scheds[p]); }
  }

  lemma SchedInvStep(s: State, step: Step)
    requires KeyInv(s) && SchedInv(s) && Enabled(s, step)
    ensures SchedInv(Apply(s, step))
  {
    KeyInvStep(s, step);
    GrownStep(s, step);
    forall p | p in Apply(s, step).scheds
      ensures SchedOk(Apply(s, step), Apply(s, step).scheds[p])
    {
      SchedOkStep(s, step, p);
    }
  }

  // ---- keys ---------------------------------------------------------------------------------

  lemma RowInvGrow(s: State, step: Step)
    requires KeyInv(s) && RowInv(s) && Enabled(s, step) && GrowStep(step) && !step.Insert?
    ensures RowInv(Apply(s, step))
  {
    var s' := Apply(s, step);
    assert forall id :: id in s'.rows ==> id in s.rows && s'.rows[id] == s.rows[id];
  }

  lemma RowInvSame(s: State, s': State)
    requires RowInv(s) && SameIds(s, s')
    ensures RowInv(s')
  {
  }

  lemma RowInvStep(s: State, step: Step)
    requires KeyInv(s) && SchedInv(s) && RowInv(s) && Enabled(s, step)
    ensures RowInv(Apply(s, step))
  {
    if step.Insert? { RowInvInsert(s, step.sched); }
    else if GrowStep(step) { RowInvGrow(s, step); }
    else { SameIdsStep(s, step); RowInvSame(s, Apply(s, step)); }
  }

  lemma InsertedIsReported(r: Row, e: Event, k: nat, now: Time)
    requires k < |e.plan| && InsertedFrom(r, e.id, e.plan[k], now)
    ensures r.event == e.id && Reported(e, r.name)
  {
    var x :| x in e.plan[k] && r == NewRow(e.id, x.name, x.mode, x.error, x.dead, now);
    var j :| 0 <= j < |e.plan[k]| && e.plan[k][j] == x;
    assert e.plan[k][j].name == r.name;
  }

  lemma RowInvInsert(s: State, p: nat)
    requires KeyInv(s) && RowInv(s) && Enabled(s, Insert(p)) && BatchOk(s, s.scheds[p])
    ensures RowInv(DoInsert(s, p))
  {
    var s', c := DoInsert(s, p), s.scheds[p];
    var e := c.batch[c.i];
    InsertRowsSpec(s.rows, s.nextRow, e.id, e.plan[c.k], s.now);
    forall id | id in s'.rows && s'.rows[id].event in s'.events
      ensures Reported(s'.events[s'.rows[id].event], s'.rows[id].name)
    {
      if id !in s.rows { InsertedIsReported(s'.rows[id], e, c.k, s.now); }
    }
  }

  // ---- restart safety --------------------------------------------------------------------------

  /** Unless a rescan ever began: every surviving event at or below a cursor, or at or below the
      event of any row, has the rows of its valid callbacks. */
  ghost predicate BaseInv(s: State) {
    !s.rescanned ==>
      && (forall p :: p in s.scheds ==> ValidUpTo(s, s.scheds[p].cursor))
      && (forall id :: id in s.rows ==> ValidUpTo(s, s.rows[id].event))
  }

  ghost predicate ValidUpTo(s: State, top: nat) {
    forall e :: e in s.events && e <= top ==> ValidDone(s.rows, s.events[e])
  }

  lemma ValidKept(s: State, s': State, top: nat)
    requires Grown(s, s') && KeyInv(s') && ValidUpTo(s, top) && top < s.nextEvent
    ensures ValidUpTo(s', top)
  {
  }

  /** When a scheduler runs statement `k` of its current event, all earlier events are scheduled. */
  lemma ValidBelow(s: State, c: Sched)
    requires KeyInv(s) && SchedOk(s, c) && ValidUpTo(s, c.cursor) && c.i < |c.batch|
    ensures forall e :: e in s.events && e < c.batch[c.i].id ==> ValidDone(s.rows, s.events[e])
  {
    forall e | e in s.events && e < c.batch[c.i].id ensures ValidDone(s.rows, s.events[e]) {
      if c.cursor < e {
        assert c.i < |c.batch| - 1 ==> c.batch[c.i].id < c.batch[|c.batch| - 1].id;
        var j :| 0 <= j < |c.batch| && c.batch[j] == s.events[e];
        assert j < c.i;
      }
    }
  }

  /** Its first statement gives an event all its valid callbacks' rows. */
  lemma FirstStatement(rows: map<nat, Row>, e: Event, k: nat)
    requires WellMade(e) && Done(rows, e, k) && 1 <= k
    ensures ValidDone(rows, e)
  {
  }

  lemma BaseInsert(s: State, p: nat)
    requires KeyInv(s) && Sound(s) && Enabled(s, Insert(p)) && SchedOk(s, s.scheds[p])
    requires ValidUpTo(s, s.scheds[p].cursor)
    ensures ValidUpTo(Apply(s, Insert(p)), s.scheds[p].batch[s.scheds[p].i].id)
  {
    var s', c := Apply(s, Insert(p)), s.scheds[p];
    var ev := c.batch[c.i];
    InsertCompletes(s.rows, s.nextRow, ev, c.k, s.now);
    FirstStatement(s'.rows, ev, c.k + 1);
    ValidBelow(s, c);
    GrownStep(s, Insert(p));
    forall e | e in s'.events && e <= ev.id ensures ValidDone(s'.rows, s'.events[e]) {
      if e < ev.id { assert ValidDone(s.rows, s.events[e]); }
    }
  }

  lemma BaseOthers(s: State, step: Step)
    requires KeyInv(s) && SchedInv(s) && BaseInv(s) && Enabled(s, step)
    ensures var s' := Apply(s, step);
            !s'.rescanned ==>
              && (forall p :: p in s.scheds ==> ValidUpTo(s', s.scheds[p].cursor))
              && (forall id :: id in s.rows ==> ValidUpTo(s', s.rows[id].event))
  {
    var s' := Apply(s, step);
    GrownStep(s, step);
    KeyInvStep(s, step);
    if !s'.rescanned {
      forall p | p in s.scheds ensures ValidUpTo(s', s.scheds[p].cursor) { ValidKept(s, s', s.scheds[p].cursor); }
      forall id | id in s.rows ensures ValidUpTo(s', s.rows[id].event) { ValidKept(s, s', s.rows[id].event); }
    }
  }

  lemma BaseCommit(s: State, p: nat)
    requires KeyInv(s) && Enabled(s, Commit(p)) && SchedOk(s, s.scheds[p]) && ValidUpTo(s, s.scheds[p].cursor)
    ensures ValidUpTo(s, s.scheds[p].batch[s.scheds[p].i].id)
  {
    var c := s.scheds[p];
    forall e | e in s.events && e <= c.batch[c.i].id ensures ValidDone(s.rows, s.events[e]) {
      if c.cursor < e { PassedInBatch(s, c, e); }
    }
  }

  lemma BaseScheds(s: State, step: Step)
    requires KeyInv(s) && SchedInv(s) && BaseInv(s) && Enabled(s, step) && !Apply(s, step).rescanned
    ensures var s' := Apply(s, step); forall p :: p in s'.scheds ==> ValidUpTo(s', s'.scheds[p].cursor)
  {
    var s' := Apply(s, step);
    BaseOthers(s, step);
    forall p | p in s'.scheds ensures ValidUpTo(s', s'.scheds[p].cursor) {
      if !MovesSched(step) || p != step.sched { OthersStay(s, step, p); }
      else if step.Commit? { BaseCommit(s, p); }
      else if step.Recover? { assert s.rows == map[] ==> ValidUpTo(s', 0); }
    }
  }

  lemma BaseRows(s: State, step: Step)
    requires KeyInv(s) && Sound(s) && SchedInv(s) && BaseInv(s) && Enabled(s, step) && !Apply(s, step).rescanned
    ensures var s' := Apply(s, step); forall id :: id in s'.rows ==> ValidUpTo(s', s'.rows[id].event)
  {
    var s' := Apply(s, step);
    BaseOthers(s, step);
    if step.Insert? {
      var c := s.scheds[step.sched];
      InsertRowsSpec(s.rows, s.nextRow, c.batch[c.i].id, c.batch[c.i].plan[c.k], s.now);
      BaseInsert(s, step.sched);
    } else if !GrowStep(step) {
      SameIdsStep(s, step);
    }
  }

  lemma BaseInvStep(s: State, step: Step)
    requires KeyInv(s) && Sound(s) && SchedInv(s) && BaseInv(s) && Enabled(s, step)
    ensures BaseInv(Apply(s, step))
  {
    if !Apply(s, step).rescanned { BaseScheds(s, step); BaseRows(s, step); }
  }

  /** Restart safety: whenever a replica recovers its cursor, every valid callback of every surviving
      event at or below it already has its row. */
  lemma RestartSafe(s: State)
    requires KeyInv(s) && BaseInv(s) && !s.rescanned
    ensures ValidUpTo(s, RecoveredCursor(s.rows))
  {
  }

  // ---- invalid callbacks across restarts -----------------------------------------------------

  ghost predicate CompleteBelow(s: State, top: nat) {
    forall e :: e in s.events && e < top ==> FullyScheduled(s.rows, s.events[e])
  }

  /** Every surviving event at or below a cursor, or below the event of any row, has all its rows,
      those of its invalid callbacks included. */
  ghost predicate FullInv(s: State) {
    && (forall p :: p in s.scheds ==> CompleteBelow(s, s.scheds[p].cursor + 1))
    && (forall id :: id in s.rows ==> CompleteBelow(s, s.rows[id].event))
  }

  /** The event of the newest row is not half scheduled. */
  ghost predicate NewestDone(s: State) {
    s.rows == map[] || (RecoveredCursor(s.rows) in s.events ==>
                        FullyScheduled(s.rows, s.events[RecoveredCursor(s.rows)]))
  }

  /** Restarting keeps the promise exactly when the newest row's event is complete: a replica that
      crashed between its two INSERT statements leaves the invalid callbacks of that event unrecorded. */
  lemma RecoverExact(s: State, p: nat)
    requires KeyInv(s) && FullInv(s)
    ensures FullInv(Apply(s, Recover(p))) <==> NewestDone(s)
  {
    var s', top := Apply(s, Recover(p)), RecoveredCursor(s.rows);
    assert s'.rows == s.rows && s'.events == s.events && s'.scheds == s.scheds[p := StartAt(top)];
    if s.rows != map[] { assert CompleteBelow(s, top); }
    assert CompleteBelow(s', top + 1) <==> NewestDone(s);
    if FullInv(s') { assert s'.scheds[p].cursor == top; }
  }

  lemma CompleteKept(s: State, s': State, top: nat)
    requires Grown(s, s') && KeyInv(s') && CompleteBelow(s, top) && top <= s.nextEvent
    ensures CompleteBelow(s', top)
  {
    forall e | e in s'.events && e < top ensures FullyScheduled(s'.rows, s'.events[e]) {
      DoneKept(s, s', s.events[e], |s.events[e].plan|);
    }
  }

  lemma PassedBelow(s: State, c: Sched)
    requires KeyInv(s) && SchedOk(s, c) && CompleteBelow(s, c.cursor + 1) && c.i < |c.batch|
    ensures CompleteBelow(s, c.batch[c.i].id)
  {
    forall e | e in s.events && e < c.batch[c.i].id ensures FullyScheduled(s.rows, s.events[e]) {
      if c.cursor < e {
        assert c.i < |c.batch| - 1 ==> c.batch[c.i].id < c.batch[|c.batch| - 1].id;
        var j :| 0 <= j < |c.batch| && c.batch[j] == s.events[e];
        assert j < c.i;
      }
    }
  }

  lemma FullOthers(s: State, s': State)
    requires KeyInv(s) && KeyInv(s') && Grown(s, s') && SchedInv(s) && FullInv(s)
    ensures forall p :: p in s.scheds ==> CompleteBelow(s', s.scheds[p].cursor + 1)
    ensures forall id :: id in s.rows ==> CompleteBelow(s', s.rows[id].event)
  {
    forall p | p in s.scheds
      ensures CompleteBelow(s', s.scheds[p].cursor + 1)
    {
      CompleteKept(s, s', s.scheds[p].cursor + 1);
    }
    forall id | id in s.rows ensures CompleteBelow(s', s.rows[id].event) { CompleteKept(s, s', s.rows[id].event); }
  }

  lemma FullCommit(s: State, p: nat)
    requires KeyInv(s) && Enabled(s, Commit(p)) && SchedOk(s, s.scheds[p]) && CompleteBelow(s, s.scheds[p].cursor + 1)
    ensures CompleteBelow(s, s.scheds[p].batch[s.scheds[p].i].id + 1)
  {
    var c := s.scheds[p];
    forall e | e in s.events && e <= c.batch[c.i].id ensures FullyScheduled(s.rows, s.events[e]) {
      if c.cursor < e { PassedInBatch(s, c, e); }
    }
  }

  lemma FullScheds(s: State, step: Step)
    requires KeyInv(s) && SchedInv(s) && FullInv(s) && Enabled(s, step) && !step.Rescan? && !step.Recover?
    ensures var s' := Apply(s, step); forall p :: p in s'.scheds ==> CompleteBelow(s', s'.scheds[p].cursor + 1)
  {
    var s' := Apply(s, step);
    GrownStep(s, step);
    KeyInvStep(s, step);
    FullOthers(s, s');
    forall p | p in s'.scheds ensures CompleteBelow(s', s'.scheds[p].cursor + 1) { FullSched(s, step, p); }
  }

  lemma FullSched(s: State, step: Step, p: nat)
    requires KeyInv(s) && SchedInv(s) && FullInv(s) && Enabled(s, step) && !step.Rescan? && !step.Recover?
    requires p in Apply(s, step).scheds
    requires p in s.scheds ==> CompleteBelow(Apply(s, step), s.scheds[p].cursor + 1)
    ensures CompleteBelow(Apply(s, step), Apply(s, step).scheds[p].cursor + 1)
  {
    if !MovesSched(step) || p != step.sched { OthersStay(s, step, p); }
    else if step.Commit? { FullCommit(s, p); }
  }

  lemma FullInsert(s: State, p: nat)
    requires KeyInv(s) && Enabled(s, Insert(p)) && SchedOk(s, s.scheds[p]) && CompleteBelow(s, s.scheds[p].cursor + 1)
    ensures CompleteBelow(Apply(s, Insert(p)), s.scheds[p].batch[s.scheds[p].i].id)
  {
    var s', c := Apply(s, Insert(p)), s.scheds[p];
    GrownStep(s, Insert(p));
    KeyInvStep(s, Insert(p));
    PassedBelow(s, c);
    CompleteKept(s, s', c.batch[c.i].id);
  }

  /** A step adds rows only for the event its scheduler is at. */
  lemma WhoseRows(s: State, step: Step, id: nat)
    requires KeyInv(s) && Enabled(s, step) && id in Apply(s, step).rows
    ensures var s' := Apply(s, step);
            || (id in s.rows && s'.rows[id].event == s.rows[id].event)
            || (step.Insert? && s'.rows[id].event == s.scheds[step.sched].batch[s.scheds[step.sched].i].id)
  {
    if step.Insert? {
      var c := s.scheds[step.sched];
      InsertRowsSpec(s.rows, s.nextRow, c.batch[c.i].id, c.batch[c.i].plan[c.k], s.now);
    } else if !GrowStep(step) {
      SameIdsStep(s, step);
    }
  }

  lemma FullRows(s: State, step: Step)
    requires KeyInv(s) && SchedInv(s) && FullInv(s) && Enabled(s, step)
    ensures var s' := Apply(s, step); forall id :: id in s'.rows ==> CompleteBelow(s', s'.rows[id].event)
  {
    var s' := Apply(s, step);
    GrownStep(s, step);
    KeyInvStep(s, step);
    FullOthers(s, s');
    if step.Insert? { FullInsert(s, step.sched); }
    forall id | id in s'.rows ensures CompleteBelow(s', s'.rows[id].event) { WhoseRows(s, step, id); }
  }

  lemma FullInvStep(s: State, step: Step)
    requires KeyInv(s) && SchedInv(s) && FullInv(s) && Enabled(s, step) && !step.Rescan?
    requires step.Recover? ==> NewestDone(s)
    ensures FullInv(Apply(s, step))
  {
    if step.Recover? { RecoverExact(s, step.sched); }
    else { FullScheds(s, step); FullRows(s, step); }
  }

  // ---- rows inserted alive and rows inserted dead ---------------------------------------------

  /** A tuple that the event's plan inserts alive. */
  ghost predicate LiveEntry(e: Event, name: string, mode: Mode) {
    exists k, j :: 0 <= k < |e.plan| && 0 <= j < |e.plan[k]| &&
        e.plan[k][j] == Entry(name, mode, false, e.plan[k][j].error)
  }

  /** A row inserted by `ensure_deliveries` comes from such a tuple. Every other row is managed, and a dead
      letter, untouched by any task, until an operator retries it. */
  ghost predicate BirthInv(s: State) {
    && (forall id :: id in s.rows && id in s.ensured && s.rows[id].event in s.events ==>
          LiveEntry(s.events[s.rows[id].event], s.rows[id].name, s.rows[id].mode))
    && (forall id :: id in s.rows && id !in s.ensured ==> s.rows[id].mode.Managed?)
    && (forall id :: id in s.rows && id !in s.ensured && id !in s.retried ==> Stillborn(s, id))
  }

  ghost predicate Stillborn(s: State, id: nat) {
    && (id in s.rows ==> s.rows[id].deadLetter)
    && (forall t :: t in s.tasks ==> s.tasks[t].row != id)
  }

  /** So a row inserted alive has its target's mode. */
  lemma EnsuredMode(s: State, id: nat)
    requires Sound(s) && BirthInv(s) && id in s.rows && id in s.ensured && Spec(s, id).Some?
    ensures Spec(s, id).value.mode == s.rows[id].mode
  {
    var e, r := s.events[s.rows[id].event], s.rows[id];
    assert LiveEntry(e, r.name, r.mode);
    var k, j :| 0 <= k < |e.plan| && 0 <= j < |e.plan[k]| &&
        e.plan[k][j] == Entry(r.name, r.mode, false, e.plan[k][j].error);
    assert !e.plan[k][j].dead;
  }

  lemma InsertedAlive(e: Event, k: nat, r: Row, now: Time)
    requires k < |e.plan| && InsertedFrom(r, e.id, e.plan[k], now) && !r.deadLetter
    ensures r.event == e.id && LiveEntry(e, r.name, r.mode)
  {
    var x :| x in e.plan[k] && r == NewRow(e.id, x.name, x.mode, x.error, x.dead, now);
    var j :| 0 <= j < |e.plan[k]| && e.plan[k][j] == x;
    assert e.plan[k][j] == Entry(r.name, r.mode, false, e.plan[k][j].error);
  }

  lemma InsertedDead(e: Event, k: nat, r: Row, now: Time)
    requires WellMade(e) && k < |e.plan| && InsertedFrom(r, e.id, e.plan[k], now) && r.deadLetter
    ensures r.mode.Managed?
  {
    var x :| x in e.plan[k] && r == NewRow(e.id, x.name, x.mode, x.error, x.dead, now);
    var j :| 0 <= j < |e.plan[k]| && e.plan[k][j] == x;
    assert e.plan[k][j].dead;
  }

  lemma BirthInsertAlive(s: State, p: nat, id: nat)
    requires KeyInv(s) && BirthInv(s) && Enabled(s, Insert(p)) && BatchOk(s, s.scheds[p])
    requires var s' := DoInsert(s, p); id in s'.rows && id in s'.ensured
    ensures var s' := DoInsert(s, p);
            s'.rows[id].event in s'.events ==>
                LiveEntry(s'.events[s'.rows[id].event], s'.rows[id].name, s'.rows[id].mode)
  {
    var s', c := DoInsert(s, p), s.scheds[p];
    var e := c.batch[c.i];
    InsertRowsSpec(s.rows, s.nextRow, e.id, e.plan[c.k], s.now);
    if id in s.rows { assert id in s.ensured; } else { InsertedAlive(e, c.k, s'.rows[id], s.now); }
  }

  lemma BirthInsertDead(s: State, p: nat, id: nat)
    requires KeyInv(s) && Sound(s) && BirthInv(s) && Enabled(s, Insert(p)) && BatchOk(s, s.scheds[p])
    requires id in DoInsert(s, p).rows && id !in DoInsert(s, p).ensured
    ensures DoInsert(s, p).rows[id].mode.Managed?
    ensures id !in s.retried ==> Stillborn(DoInsert(s, p), id)
  {
    var s', c := DoInsert(s, p), s.scheds[p];
    var e := c.batch[c.i];
    InsertRowsSpec(s.rows, s.nextRow, e.id, e.plan[c.k], s.now);
    if id in s.rows { assert id !in s.retried ==> Stillborn(s, id); } else { InsertedDead(e, c.k, s'.rows[id], s.now); }
  }

  lemma BirthInsert(s: State, p: nat)
    requires KeyInv(s) && Sound(s) && BirthInv(s) && Enabled(s, Insert(p)) && BatchOk(s, s.scheds[p])
    ensures BirthInv(DoInsert(s, p))
  {
    var s' := DoInsert(s, p);
    forall id | id in s'.rows && id in s'.ensured && s'.rows[id].event in s'.events
      ensures LiveEntry(s'.events[s'.rows[id].event], s'.rows[id].name, s'.rows[id].mode)
    {
      BirthInsertAlive(s, p, id);
    }
    forall id | id in s'.rows && id !in s'.ensured
      ensures s'.rows[id].mode.Managed? && (id !in s'.retried ==> Stillborn(s', id))
    {
      BirthInsertDead(s, p, id);
    }
  }

  lemma StillbornDispatch(s: State, step: Step, id: nat)
    requires Stillborn(s, id) && id in s.rows && Enabled(s, step) && DispatchStep(step)
    ensures id in Apply(s, step).rows && Stillborn(Apply(s, step), id)
  {
    SameIdsDispatch(s, step);
  }

  lemma StillbornOperator(s: State, step: Step, id: nat)
    requires Stillborn(s, id) && id in s.rows && Enabled(s, step) && OperatorStep(step) && step != Retry(id)
    ensures id in Apply(s, step).rows && Stillborn(Apply(s, step), id)
  {
    assert Apply(s, step).tasks == s.tasks && id in Apply(s, step).rows && Apply(s, step).rows[id].deadLetter;
  }

  lemma StillbornKept(s: State, step: Step, id: nat)
    requires Stillborn(s, id) && id in s.rows && Enabled(s, step) && !GrowStep(step) && step != Retry(id)
    ensures id in Apply(s, step).rows && Stillborn(Apply(s, step), id)
  {
    if DispatchStep(step) { StillbornDispatch(s, step, id); }
    else if OperatorStep(step) { StillbornOperator(s, step, id); }
    else { IdleStepSpec(s, step); }
  }

  lemma BirthInvStep(s: State, step: Step)
    requires KeyInv(s) && Sound(s) && SchedInv(s) && BirthInv(s) && Enabled(s, step)
    ensures BirthInv(Apply(s, step))
  {
    if step.Insert? { BirthInsert(s, step.sched); }
    else if GrowStep(step) { BirthGrow(s, step); }
    else { BirthSame(s, step); }
  }

  lemma GrowKeepsRows(s: State, step: Step, id: nat)
    requires Enabled(s, step) && GrowStep(step) && !step.Insert? && id in Apply(s, step).rows
    ensures id in s.rows && Apply(s, step).rows[id] == s.rows[id]
  {
  }

  lemma GrowKeepsEvents(s: State, step: Step, e: nat)
    requires KeyInv(s) && Enabled(s, step) && GrowStep(step) && !step.Insert? && e in Apply(s, step).events
    ensures (e in s.events && Apply(s, step).events[e] == s.events[e]) || s.nextEvent <= e
  {
  }

  lemma StillbornGrow(s: State, step: Step, id: nat)
    requires Stillborn(s, id) && id in s.rows && Enabled(s, step) && GrowStep(step) && !step.Insert?
    ensures Stillborn(Apply(s, step), id)
  {
  }

  lemma BirthGrow(s: State, step: Step)
    requires KeyInv(s) && BirthInv(s) && Enabled(s, step) && GrowStep(step) && !step.Insert?
    ensures BirthInv(Apply(s, step))
  {
    var s' := Apply(s, step);
    assert s'.ensured == s.ensured && s'.retried == s.retried;
    forall id | id in s'.rows ensures id in s.rows && s'.rows[id] == s.rows[id] { GrowKeepsRows(s, step, id); }
    forall id | id in s'.rows && id in s'.ensured && s'.rows[id].event in s'.events
      ensures LiveEntry(s'.events[s'.rows[id].event], s'.rows[id].name, s'.rows[id].mode)
    {
      GrowKeepsEvents(s, step, s'.rows[id].event);
    }
    forall id | id in s'.rows && id !in s'.ensured && id !in s'.retried ensures Stillborn(s', id) {
      StillbornGrow(s, step, id);
    }
  }

  lemma RetriedGrows(s: State, step: Step)
    requires Enabled(s, step)
    ensures s.retried <= Apply(s, step).retried && (step.Retry? ==> step.row in Apply(s, step).retried)
  {
  }

  lemma BirthSame(s: State, step: Step)
    requires BirthInv(s) && Enabled(s, step) && !GrowStep(step)
    ensures BirthInv(Apply(s, step))
  {
    var s' := Apply(s, step);
    SameIdsStep(s, step);
    RetriedGrows(s, step);
    forall id | id in s'.rows && id !in s'.ensured && id !in s'.retried ensures Stillborn(s', id) {
      StillbornKept(s, step, id);
    }
    BirthKept(s, s');
  }

  lemma BirthKept(s: State, s': State)
    requires BirthInv(s) && SameIds(s, s')
    requires forall id :: id in s'.rows && id !in s'.ensured && id !in s'.retried ==> Stillborn(s', id)
    ensures BirthInv(s')
  {
  }
}
