/** `schedule_new_deliveries` and the rescan loop. */
module Scheduler {
  import opened Basics
  import opened Table
  import opened Callbacks
  import opened Interpretation
  import opened Ordered
  import opened Agreement
  import opened Repository
  import Leases

  /** One INSERT statement on behalf of an event. */
  datatype Stmt = Stmt(event: nat, entries: seq<Entry>)

  // ---- what a pass does, as a value ------------------------------------------------------

  function PlanStmts(event: nat, plan: seq<seq<Entry>>): seq<Stmt> {
    seq(|plan|, i requires 0 <= i < |plan| => Stmt(event, plan[i]))
  }

  /** `plans` gives every event the statements that schedule it. */
  ghost predicate PlansOf(plans: map<nat, seq<seq<Entry>>>, events: map<nat, RawEvent>, rules: Rules) {
    && plans.Keys == events.Keys
    && forall id :: id in events ==> plans[id] == Plan(events[id], rules)
  }

  /** The statements that schedule these events, one event after the other. */
  function Stmts(plans: map<nat, seq<seq<Entry>>>, ids: seq<nat>): seq<Stmt> {
    if ids == [] then []
    else Stmts(plans, ids[..|ids| - 1]) + StmtsOf(plans, ids[|ids| - 1])
  }

  function StmtsOf(plans: map<nat, seq<seq<Entry>>>, id: nat): seq<Stmt> {
    if id in plans then PlanStmts(id, plans[id]) else []
  }

  function Run(rows: map<nat, Row>, next: nat, stmts: seq<Stmt>, now: Time): (map<nat, Row>, nat) {
    if stmts == [] then (rows, next)
    else
      var (r, n) := Run(rows, next, stmts[..|stmts| - 1], now);
      var last := stmts[|stmts| - 1];
      InsertRows(r, n, last.event, last.entries, now)
  }

  lemma {:induction false} RunAppend(rows: map<nat, Row>, next: nat, a: seq<Stmt>, b: seq<Stmt>, now: Time)
    ensures Run(rows, next, a + b, now) == var (r, n) := Run(rows, next, a, now); Run(r, n, b, now)
    decreases |b|
  {
    if b == [] {
      assert a + b == a;
    } else {
      var front := b[..|b| - 1];
      RunAppend(rows, next, a, front, now);
      assert (a + b)[..|a + b| - 1] == a + front;
    }
  }

  lemma {:induction false} StmtsAppend(plans: map<nat, seq<seq<Entry>>>, a: seq<nat>, b: seq<nat>)
    ensures Stmts(plans, a + b) == Stmts(plans, a) + Stmts(plans, b)
    decreases |b|
  {
    if b == [] {
      assert a + b == a;
    } else {
      var front, last := b[..|b| - 1], b[|b| - 1];
      StmtsAppend(plans, a, front);
      assert (a + b)[..|a + b| - 1] == a + front && (a + b)[|a + b| - 1] == last;
      Regroup(Stmts(plans, a), Stmts(plans, front), StmtsOf(plans, last));
    }
  }

  // ---- idempotence ------------------------------------------------------------------------

  /** Every tuple of these statements has its row. */
  ghost predicate AllPresent(rows: map<nat, Row>, stmts: seq<Stmt>) {
    forall i, j :: 0 <= i < |stmts| && 0 <= j < |stmts[i].entries| ==>
        HasRow(rows, stmts[i].event, stmts[i].entries[j].name)
  }

  lemma {:induction false} InsertNothing(rows: map<nat, Row>, next: nat, event: nat, entries: seq<Entry>, now: Time)
    requires forall j :: 0 <= j < |entries| ==> HasRow(rows, event, entries[j].name)
    ensures InsertRows(rows, next, event, entries, now).0 == rows
    decreases |entries|
  {
    if entries != [] {
      assert HasRow(rows, event, entries[0].name);
      InsertNothing(rows, next + 1, event, entries[1..], now);
    }
  }

  /** Scheduling again what is scheduled changes no row. */
  lemma {:induction false} RunNothing(rows: map<nat, Row>, next: nat, stmts: seq<Stmt>, now: Time)
    requires AllPresent(rows, stmts)
    ensures Run(rows, next, stmts, now).0 == rows
    decreases |stmts|
  {
    if stmts != [] {
      RunNothing(rows, next, stmts[..|stmts| - 1], now);
      var last := stmts[|stmts| - 1];
      InsertNothing(rows, Run(rows, next, stmts[..|stmts| - 1], now).1, last.event, last.entries, now);
    }
  }

  /** Running statements keeps existing rows and gives every tuple its row. */
  lemma {:induction false} RunSpec(rows: map<nat, Row>, next: nat, stmts: seq<Stmt>, now: Time)
    requires forall id :: id in rows ==> id < next
    ensures var (rows', next') := Run(rows, next, stmts, now);
            && (forall id :: id in rows' ==> id < next')
            && rows.Keys <= rows'.Keys && (forall id :: id in rows ==> rows'[id] == rows[id])
            && AllPresent(rows', stmts)
    decreases |stmts|
  {
    if stmts != [] {
      var front, last := stmts[..|stmts| - 1], stmts[|stmts| - 1];
      RunSpec(rows, next, front, now);
      var (r, n) := Run(rows, next, front, now);
      Leases.InsertRowsSpec(r, n, last.event, last.entries, now);
      var rows' := Run(rows, next, stmts, now).0;
      forall i, j | 0 <= i < |stmts| && 0 <= j < |stmts[i].entries|
        ensures HasRow(rows', stmts[i].event, stmts[i].entries[j].name)
      {
        if i < |stmts| - 1 {
          assert front[i] == stmts[i];
          assert HasRow(r, front[i].event, front[i].entries[j].name);
          var id :| id in r && r[id].event == stmts[i].event && r[id].name == stmts[i].entries[j].name;
          assert id in rows' && rows'[id] == r[id];
        } else {
          assert stmts[i].entries[j] in last.entries;
        }
      }
    }
  }

  /** Scheduling is idempotent: a second run, at any later time, changes no row. */
  lemma Idempotent(rows: map<nat, Row>, next: nat, stmts: seq<Stmt>, now: Time, later: Time)
    requires forall id :: id in rows ==> id < next
    ensures var (r, n) := Run(rows, next, stmts, now); Run(r, n, stmts, later).0 == r
  {
    RunSpec(rows, next, stmts, now);
    var (r, n) := Run(rows, next, stmts, now);
    RunNothing(r, n, stmts, later);
  }

  // ---- batches -----------------------------------------------------------------------------

  lemma AboveSplit(events: map<nat, RawEvent>, cursor: nat, limit: nat)
    requires limit >= 1 && Above(events, cursor) != []
    ensures var batch := Batch(events, cursor, limit);
            batch != [] && batch[|batch| - 1] in IdsAbove(events, cursor) &&
            Above(events, cursor) == batch + Above(events, batch[|batch| - 1])
  {
    var n := Min(limit, |Above(events, cursor)|);
    assert Above(events, cursor)[n - 1] in Above(events, cursor);
    AscendingSplit(IdsAbove(events, cursor), n, IdsAbove(events, Above(events, cursor)[n - 1]));
  }

  /** A batch followed by what lies above it is everything: batch boundaries leave no trace. */
  lemma BatchSplit(events: map<nat, RawEvent>, plans: map<nat, seq<seq<Entry>>>, cursor: nat, limit: nat)
    requires limit >= 1 && Above(events, cursor) != []
    ensures var batch := Batch(events, cursor, limit);
            batch != [] &&
            Stmts(plans, Above(events, cursor)) == Stmts(plans, batch) + Stmts(plans, Above(events, batch[|batch| - 1]))
  {
    AboveSplit(events, cursor, limit);
    var batch := Batch(events, cursor, limit);
    StmtsAppend(plans, batch, Above(events, batch[|batch| - 1]));
  }

  /** What the tables hold apart from their timestamps. */
  function Shape(rows: map<nat, Row>): map<nat, (nat, string, Mode, bool)> {
    map id | id in rows :: (rows[id].event, rows[id].name, rows[id].mode, rows[id].deadLetter)
  }

  lemma SameHasRow(a: map<nat, Row>, b: map<nat, Row>, event: nat, name: string)
    requires Shape(a) == Shape(b)
    ensures HasRow(a, event, name) <==> HasRow(b, event, name)
  {
    assert forall id :: id in a <==> id in Shape(a);
    assert forall id :: id in b <==> id in Shape(b);
    if HasRow(a, event, name) {
      var id :| id in a && a[id].event == event && a[id].name == name;
      assert Shape(b)[id] == Shape(a)[id];
    }
    if HasRow(b, event, name) {
      var id :| id in b && b[id].event == event && b[id].name == name;
      assert Shape(b)[id] == Shape(a)[id];
    }
  }

  lemma {:induction false} SameShapeInsert(a: map<nat, Row>, b: map<nat, Row>, next: nat, event: nat,
                                           entries: seq<Entry>, ta: Time, tb: Time)
    requires Shape(a) == Shape(b)
    ensures var (a', na) := InsertRows(a, next, event, entries, ta);
            var (b', nb) := InsertRows(b, next, event, entries, tb);
            Shape(a') == Shape(b') && na == nb
    decreases |entries|
  {
    if entries != [] {
      var e := entries[0];
      SameHasRow(a, b, event, e.name);
      if HasRow(a, event, e.name) {
        SameShapeInsert(a, b, next + 1, event, entries[1..], ta, tb);
      } else {
        var a' := a[next := NewRow(event, e.name, e.mode, e.error, e.dead, ta)];
        var b' := b[next := NewRow(event, e.name, e.mode, e.error, e.dead, tb)];
        assert Shape(a') == Shape(a)[next := (event, e.name, e.mode, e.dead)];
        assert Shape(b') == Shape(b)[next := (event, e.name, e.mode, e.dead)];
        SameShapeInsert(a', b', next + 1, event, entries[1..], ta, tb);
      }
    }
  }

  /** The clock decides timestamps only. */
  lemma {:induction false} SameShapeRun(a: map<nat, Row>, b: map<nat, Row>, next: nat, stmts: seq<Stmt>, ta: Time,
                                        tb: Time)
    requires Shape(a) == Shape(b)
    ensures Shape(Run(a, next, stmts, ta).0) == Shape(Run(b, next, stmts, tb).0)
    ensures Run(a, next, stmts, ta).1 == Run(b, next, stmts, tb).1
    decreases |stmts|
  {
    if stmts != [] {
      var front, last := stmts[..|stmts| - 1], stmts[|stmts| - 1];
      SameShapeRun(a, b, next, front, ta, tb);
      var (ra, n) := Run(a, next, front, ta);
      SameShapeInsert(ra, Run(b, next, front, tb).0, n, last.event, last.entries, ta, tb);
    }
  }

  // ---- the pass -----------------------------------------------------------------------------

  /** One statement; the database fails once `budget` statements have run. */
  method Execute(repo: PgRepo, event: nat, entries: seq<Entry>, now: Time, budget: nat) returns (ok: bool, left: nat)
    requires repo.Valid() && event in repo.events
    modifies repo`rows, repo`nextRow
    ensures repo.Valid()
    ensures ok <==> budget > 0
    ensures left == if ok then budget - 1 else 0
    ensures ok ==> (repo.rows, repo.nextRow) == InsertRows(old(repo.rows), old(repo.nextRow), event, entries, now)
    ensures !ok ==> repo.rows == old(repo.rows) && repo.nextRow == old(repo.nextRow)
  {
    if budget == 0 { return false, 0; }
    ok := repo.InsertTuples(event, entries, now);
    left := budget - 1;
  }

  /** The table after the first `budget` statements. */
  ghost function Partial(rows: map<nat, Row>, next: nat, stmts: seq<Stmt>, budget: nat, now: Time)
    : (map<nat, Row>, nat)
  {
    Run(rows, next, stmts[..Min(budget, |stmts|)], now)
  }

  lemma PartialSmall(rows: map<nat, Row>, next: nat, a: Stmt, b: Stmt, budget: nat, now: Time)
    ensures Partial(rows, next, [], budget, now) == (rows, next)
    ensures Partial(rows, next, [a, b], 0, now) == Partial(rows, next, [a], 0, now) == (rows, next)
    ensures budget > 0 ==> Partial(rows, next, [a], budget, now) == InsertRows(rows, next, a.event, a.entries, now)
    ensures Partial(rows, next, [a, b], 1, now) == InsertRows(rows, next, a.event, a.entries, now)
    ensures var (r, n) := InsertRows(rows, next, a.event, a.entries, now);
            budget > 1 ==> Partial(rows, next, [a, b], budget, now) == InsertRows(r, n, b.event, b.entries, now)
  {
    assert [a][..1] == [a] && [a, b][..2] == [a, b] && [a, b][..1] == [a] && [a][..0] == [] && [a, b][..0] == [];
    assert Run(rows, next, [a], now) == InsertRows(rows, next, a.event, a.entries, now);
  }

  /** One event of a pass: as many statements of its plan have run as the database lets. */
  method ScheduleEvent(repo: PgRepo, id: nat, ghost plan: seq<seq<Entry>>, now: Time, budget: nat)
    returns (ok: bool, left: nat)
    requires repo.Valid() && id in repo.events && plan == Plan(repo.events[id], repo.rules)
    modifies repo`rows, repo`nextRow
    ensures repo.Valid()
    ensures var stmts := PlanStmts(id, plan);
            && (ok <==> budget >= |stmts|)
            && left == budget - Min(budget, |stmts|)
            && (repo.rows, repo.nextRow) == Partial(old(repo.rows), old(repo.nextRow), stmts, budget, now)
  {
    var event, rules := repo.events[id], repo.rules;
    ghost var stmts := PlanStmts(id, plan);
    if |stmts| > 0 { PartialSmall(repo.rows, repo.nextRow, stmts[0], stmts[|stmts| - 1], budget, now); }
    if event.payloadBytes > rules.settings.payloadSizeLimitBytes {
      assert stmts == [stmts[0]];
      ok, left := Execute(repo, id, DeadEntries(ExtractNames(event.callbacks), rules.message(PayloadTooLarge)), now,
                          budget);
      return;
    }
    var parsed := ParseCallbacks(event.callbacks, rules);
    if RootRejected(parsed) {
      ok, left := true, budget;
      if event.callbacks.Arr? {
        assert stmts == [stmts[0]];
        var message := if parsed.invalid != [] then rules.message(parsed.invalid[0].reason)
                       else "invalid_callback: unspecified array-level rejection";
        ok, left := Execute(repo, id, DeadEntries(ExtractNames(event.callbacks), message), now, budget);
      }
      return;
    }
    assert stmts == (if parsed.valid != [] then [Stmt(id, ValidEntries(parsed.valid))] else []) +
                    (if parsed.invalid != [] then [Stmt(id, InvalidEntries(parsed.invalid, rules))] else []);
    ok, left := ScheduleParsed(repo, id, ValidEntries(parsed.valid), InvalidEntries(parsed.invalid, rules), now,
                               budget);
  }

  /** `ensure_deliveries` for the valid callbacks, then `create_invalid_deliveries` for the others. */
  method ScheduleParsed(repo: PgRepo, id: nat, valid: seq<Entry>, invalid: seq<Entry>, now: Time, budget: nat)
    returns (ok: bool, left: nat)
    requires repo.Valid() && id in repo.events
    modifies repo`rows, repo`nextRow
    ensures repo.Valid()
    ensures var stmts := (if valid != [] then [Stmt(id, valid)] else []) +
                         (if invalid != [] then [Stmt(id, invalid)] else []);
            && (ok <==> budget >= |stmts|)
            && left == budget - Min(budget, |stmts|)
            && (repo.rows, repo.nextRow) == Partial(old(repo.rows), old(repo.nextRow), stmts, budget, now)
  {
    PartialSmall(repo.rows, repo.nextRow, Stmt(id, valid), Stmt(id, invalid), budget, now);
    PartialSmall(repo.rows, repo.nextRow, Stmt(id, invalid), Stmt(id, invalid), budget, now);
    ghost var (v, w) := (if valid != [] then [Stmt(id, valid)] else [],
                         if invalid != [] then [Stmt(id, invalid)] else []);
    assert v + w == if valid == [] then w else if invalid == [] then v else [Stmt(id, valid), Stmt(id, invalid)];
    ok, left := true, budget;
    if valid != [] {
      ok, left := Execute(repo, id, valid, now, left);
      if !ok { return; }
    }
    if invalid != [] {
      ok, left := Execute(repo, id, invalid, now, left);
    }
  }

  function LastOr(batch: seq<nat>, cursor: nat): nat {
    if batch == [] then cursor else batch[|batch| - 1]
  }

  /** The statements of event `i` follow those of the events before it. */
  lemma StmtsPrefix(plans: map<nat, seq<seq<Entry>>>, batch: seq<nat>, i: nat)
    requires i < |batch|
    ensures Stmts(plans, batch[..i + 1]) == Stmts(plans, batch[..i]) + StmtsOf(plans, batch[i])
    ensures Stmts(plans, batch[..i + 1]) <= Stmts(plans, batch)
  {
    assert batch == batch[..i + 1] + batch[i + 1..];
    StmtsAppend(plans, batch[..i + 1], batch[i + 1..]);
    assert batch[..i + 1][..i] == batch[..i];
  }

  lemma CutOff(before: seq<Stmt>, mine: seq<Stmt>, stmts: seq<Stmt>, left: nat)
    requires before + mine <= stmts && left < |mine|
    ensures before + mine[..left] == stmts[..|before| + left] && |before| + left < |stmts|
  {
    assert stmts[..|before| + left] == (before + mine)[..|before| + left];
  }

  /** Where a pass stands after event `i`, of whose statements the database runs at most `left`. */
  lemma AfterEvent(rows: map<nat, Row>, next: nat, plans: map<nat, seq<seq<Entry>>>, batch: seq<nat>, i: nat, left: nat,
                   budget: nat, now: Time)
    requires i < |batch| && budget == |Stmts(plans, batch[..i])| + left
    ensures |Stmts(plans, batch[..i + 1])| == |Stmts(plans, batch[..i])| + |StmtsOf(plans, batch[i])|
    ensures left < |StmtsOf(plans, batch[i])| ==> budget < |Stmts(plans, batch)|
    ensures var now' := Run(rows, next, Stmts(plans, batch[..i]), now);
            Partial(now'.0, now'.1, StmtsOf(plans, batch[i]), left, now) ==
              if left < |StmtsOf(plans, batch[i])| then Partial(rows, next, Stmts(plans, batch), budget, now)
              else Run(rows, next, Stmts(plans, batch[..i + 1]), now)
  {
    var before, mine := Stmts(plans, batch[..i]), StmtsOf(plans, batch[i]);
    StmtsPrefix(plans, batch, i);
    if left < |mine| {
      CutOff(before, mine, Stmts(plans, batch), left);
      RunAppend(rows, next, before, mine[..left], now);
    } else {
      assert mine[..|mine|] == mine;
      RunAppend(rows, next, before, mine, now);
    }
  }

  /** `schedule_new_deliveries`; the database fails once `budget` statements have run, the SELECT
      included. A pass that succeeds has scheduled the whole batch; a pass that fails has run the
      statements before the failure and keeps the old cursor. */
  method ScheduleNewDeliveries(repo: PgRepo, ghost plans: map<nat, seq<seq<Entry>>>, cursor: nat, limit: nat, now: Time,
                               budget: nat)
    returns (r: Result<nat, ()>)
    requires repo.Valid() && PlansOf(plans, repo.events, repo.rules)
    modifies repo`rows, repo`nextRow
    ensures repo.Valid()
    ensures budget == 0 ==> r.Err? && repo.rows == old(repo.rows) && repo.nextRow == old(repo.nextRow)
    ensures var batch := Batch(repo.events, cursor, limit);
            budget > 0 ==>
              && r == (if budget > |Stmts(plans, batch)| then Ok(LastOr(batch, cursor)) else Err(()))
              && (repo.rows, repo.nextRow) ==
                  Partial(old(repo.rows), old(repo.nextRow), Stmts(plans, batch), budget - 1, now)
  {
    if budget == 0 { return Err(()); }
    var batch := repo.FetchNewEvents(cursor, limit);
    assert forall id :: id in batch ==> id in repo.events && id in plans;
    r := ScheduleBatch(repo, batch, plans, cursor, now, budget - 1);
  }

  /** The loop of `schedule_new_deliveries`. */
  method ScheduleBatch(repo: PgRepo, batch: seq<nat>, ghost plans: map<nat, seq<seq<Entry>>>, cursor: nat, now: Time,
                       budget: nat)
    returns (r: Result<nat, ()>)
    requires repo.Valid() && PlansOf(plans, repo.events, repo.rules) && forall id :: id in batch ==> id in plans
    modifies repo`rows, repo`nextRow
    ensures repo.Valid()
    ensures r == if budget >= |Stmts(plans, batch)| then Ok(LastOr(batch, cursor)) else Err(())
    ensures (repo.rows, repo.nextRow) == Partial(old(repo.rows), old(repo.nextRow), Stmts(plans, batch), budget, now)
  {
    var left: nat, newCursor, i := budget, cursor, 0;
    ghost var first := (repo.rows, repo.nextRow);
    while i < |batch|
      invariant 0 <= i <= |batch| && repo.Valid()
      invariant newCursor == LastOr(batch[..i], cursor)
      invariant left + |Stmts(plans, batch[..i])| == budget
      invariant (repo.rows, repo.nextRow) == Run(first.0, first.1, Stmts(plans, batch[..i]), now)
    {
      AfterEvent(first.0, first.1, plans, batch, i, left, budget, now);
      var ok;
      ok, left := ScheduleEvent(repo, batch[i], plans[batch[i]], now, left);
      if !ok {
        assert (repo.rows, repo.nextRow) == Partial(first.0, first.1, Stmts(plans, batch), budget, now);
        return Err(());
      }
      newCursor := batch[i];
      i := i + 1;
    }
    assert batch[..i] == batch;
    assert Stmts(plans, batch)[..|Stmts(plans, batch)|] == Stmts(plans, batch);
    r := Ok(newCursor);
  }

  // ---- the rescan loop -------------------------------------------------------------------------

  /** Two runs one after the other, at different times, look like one run at one time. */
  lemma RunTogether(rows: map<nat, Row>, next: nat, a: seq<Stmt>, b: seq<Stmt>, mid: map<nat, Row>, t: Time,
                    later: Time)
    requires Shape(mid) == Shape(Run(rows, next, a, t).0)
    ensures var n := Run(rows, next, a, t).1;
            && Shape(Run(mid, n, b, later).0) == Shape(Run(rows, next, a + b, t).0)
            && Run(mid, n, b, later).1 == Run(rows, next, a + b, t).1
  {
    var (r, n) := Run(rows, next, a, t);
    RunAppend(rows, next, a, b, t);
    SameShapeRun(mid, r, n, b, later, t);
  }

  ghost predicate Kept(before: map<nat, Row>, after: map<nat, Row>) {
    before.Keys <= after.Keys && forall id :: id in before ==> after[id] == before[id]
  }

  /** From `start`, the passes so far have run `done`. */
  ghost predicate Midway(start: (map<nat, Row>, nat), done: seq<Stmt>, now: (map<nat, Row>, nat), t: Time) {
    && Kept(start.0, now.0)
    && Shape(now.0) == Shape(Run(start.0, start.1, done, t).0)
    && now.1 == Run(start.0, start.1, done, t).1
  }

  lemma MidwayStep(start: (map<nat, Row>, nat), done: seq<Stmt>, mine: seq<Stmt>, now: (map<nat, Row>, nat), t: Time,
                   later: Time)
    requires Midway(start, done, now, t) && forall id :: id in now.0 ==> id < now.1
    ensures Midway(start, done + mine, Run(now.0, now.1, mine, later), t)
  {
    RunSpec(now.0, now.1, mine, later);
    RunTogether(start.0, start.1, done, mine, now.0, t, later);
  }

  /** A rescan of events that are all scheduled changes nothing at all. */
  lemma RescanNothing(before: map<nat, Row>, next: nat, stmts: seq<Stmt>, after: map<nat, Row>, t: Time)
    requires AllPresent(before, stmts) && Kept(before, after) && Shape(after) == Shape(Run(before, next, stmts, t).0)
    ensures after == before
  {
    RunNothing(before, next, stmts, t);
    assert Shape(after).Keys == after.Keys && Shape(before).Keys == before.Keys;
  }

  /** After `batches` passes that ran `done`, `todo` is left of `all`. */
  ghost predicate Rescanning(plans: map<nat, seq<seq<Entry>>>, all: seq<nat>, start: nat, todo: seq<nat>, cursor: nat,
                             limit: nat,
                             batches: nat, done: seq<Stmt>)
    requires limit >= 1
  {
    && Stmts(plans, all) == done + Stmts(plans, todo)
    && Ceil(|all|, limit) == batches + Ceil(|todo|, limit)
    && LastOr(all, start) == LastOr(todo, cursor)
  }

  /** Each pass takes one batch off what is left. */
  lemma RescanningStep(plans: map<nat, seq<seq<Entry>>>, all: seq<nat>, start: nat, todo: seq<nat>, cursor: nat,
                       limit: nat,
                       batches: nat, done: seq<Stmt>, batch: seq<nat>, rest: seq<nat>)
    requires limit >= 1 && Rescanning(plans, all, start, todo, cursor, limit, batches, done)
    requires todo != [] && todo == batch + rest && |batch| == Min(limit, |todo|)
    ensures Rescanning(plans, all, start, rest, LastOr(batch, cursor), limit, batches + 1, done + Stmts(plans, batch))
  {
    StmtsAppend(plans, batch, rest);
    Regroup(done, Stmts(plans, batch), Stmts(plans, rest));
    LastOfBoth(batch, rest, cursor);
    assert |rest| == |todo| - Min(|todo|, limit);
  }

  lemma Regroup(a: seq<Stmt>, b: seq<Stmt>, c: seq<Stmt>)
    ensures a + (b + c) == (a + b) + c
  {
  }

  lemma LastOfBoth(batch: seq<nat>, rest: seq<nat>, cursor: nat)
    ensures LastOr(batch + rest, cursor) == LastOr(rest, LastOr(batch, cursor))
  {
  }

  method RescanPass(repo: PgRepo, ghost plans: map<nat, seq<seq<Entry>>>, cursor: nat, limit: nat, now: Time,
                    budget: nat,
                    ghost first: (map<nat, Row>, nat), ghost done: seq<Stmt>, ghost t: Time)
    returns (r: Result<nat, ()>)
    requires repo.Valid() && PlansOf(plans, repo.events, repo.rules) && limit >= 1
    requires Midway(first, done, (repo.rows, repo.nextRow), t)
    modifies repo`rows, repo`nextRow
    ensures repo.Valid() && Kept(first.0, repo.rows)
    ensures r.Ok? ==> r.value == LastOr(Batch(repo.events, cursor, limit), cursor)
    ensures r.Ok? ==> Midway(first, done + Stmts(plans, Batch(repo.events, cursor, limit)), (repo.rows, repo.nextRow),
                             t)
  {
    ghost var mine := Stmts(plans, Batch(repo.events, cursor, limit));
    if budget > 0 { RunSpec(repo.rows, repo.nextRow, mine[..Min(budget - 1, |mine|)], now); }
    MidwayStep(first, done, mine, (repo.rows, repo.nextRow), t, now);
    assert mine[..|mine|] == mine;
    r := ScheduleNewDeliveries(repo, plans, cursor, limit, now, budget);
  }

  /** The rescan loop. `clock` and `budgets` give the time of each pass and the statements that run
      before the database fails in it. The loop ends, never changes an existing row, and unless a
      pass fails leaves what one pass over all events above `start` leaves, whatever the batch size. */
  method Rescan(repo: PgRepo, ghost plans: map<nat, seq<seq<Entry>>>, start: nat, limit: nat, clock: nat -> Time,
                budgets: nat -> nat)
    returns (r: Result<nat, ()>, batches: nat)
    requires repo.Valid() && PlansOf(plans, repo.events, repo.rules) && limit >= 1
    modifies repo`rows, repo`nextRow
    ensures repo.Valid() && Kept(old(repo.rows), repo.rows)
    ensures r.Ok? ==> r.value == LastOr(Above(repo.events, start), start)
    ensures r.Ok? ==> batches == Ceil(|Above(repo.events, start)|, limit)
    ensures var whole := Run(old(repo.rows), old(repo.nextRow), Stmts(plans, Above(repo.events, start)), clock(0));
            r.Ok? ==> Shape(repo.rows) == Shape(whole.0) && repo.nextRow == whole.1
  {
    var cursor := start;
    batches := 0;
    ghost var first := (repo.rows, repo.nextRow);
    ghost var done: seq<Stmt> := [];
    while true
      invariant repo.Valid() && Midway(first, done, (repo.rows, repo.nextRow), clock(0))
      invariant Rescanning(plans, Above(repo.events, start), start, Above(repo.events, cursor), cursor, limit, batches,
                           done)
      decreases |Above(repo.events, cursor)|
    {
      r := RescanPass(repo, plans, cursor, limit, clock(batches), budgets(batches), first, done, clock(0));
      if r.Err? { return; }
      ghost var todo := Above(repo.events, cursor);
      if r.value == cursor {
        assert todo == [];
        return;
      }
      AboveSplit(repo.events, cursor, limit);
      RescanningStep(plans, Above(repo.events, start), start, todo, cursor, limit, batches, done,
                     Batch(repo.events, cursor, limit), Above(repo.events, r.value));
      done := done + Stmts(plans, Batch(repo.events, cursor, limit));
      cursor, batches := r.value, batches + 1;
    }
  }
}
