/**
 The repository: two tables whose rows the SQL statements change in place. Every statement
 applies the row function of the corresponding step of the state machine.
 */
module Repository {
  import opened Basics
  import opened Table
  import opened Callbacks
  import opened Agreement
  import opened Interpretation
  import opened Ordered
  import opened Retention
  import opened Statistics
  import Protocol

  datatype DueDelivery = DueDelivery(row: nat, attempts: nat, target: Target)

  datatype RetryOutcome = Reset | Missing | Locked

  datatype SweepReport = SweepReport(reset: nat, exhausted: nat)

  function IdsAbove(events: map<nat, RawEvent>, cursor: nat): set<nat> {
    set id | id in events && id > cursor
  }

  ghost function Above(events: map<nat, RawEvent>, cursor: nat): seq<nat> {
    Ascending(IdsAbove(events, cursor))
  }

  /** ORDER BY id LIMIT `limit`. */
  ghost function Batch(events: map<nat, RawEvent>, cursor: nat, limit: nat): (batch: seq<nat>)
    ensures |batch| <= limit && forall id :: id in batch ==> id in events && id > cursor
  {
    assert forall id :: id in Above(events, cursor)[..Min(limit, |Above(events, cursor)|)] ==>
        id in Above(events, cursor);
    Above(events, cursor)[..Min(limit, |Above(events, cursor)|)]
  }

  /** ORDER BY available_at, id. */
  predicate Before(rows: map<nat, Row>, a: nat, b: nat)
    requires a in rows && b in rows
  {
    rows[a].availableAt < rows[b].availableAt || (rows[a].availableAt == rows[b].availableAt && a < b)
  }

  predicate First(rows: map<nat, Row>, ids: set<nat>, x: nat)
    requires ids <= rows.Keys
  {
    x in ids && forall y :: y in ids && y != x ==> Before(rows, x, y)
  }

  lemma {:induction false} FirstExists(rows: map<nat, Row>, ids: set<nat>, x: nat)
    requires ids <= rows.Keys && x in ids
    ensures exists m :: First(rows, ids, m)
    decreases set y | y in ids && Before(rows, y, x)
  {
    if y :| y in ids && Before(rows, y, x) {
      var ahead, aheadY := set z | z in ids && Before(rows, z, x), set z | z in ids && Before(rows, z, y);
      assert aheadY <= ahead && y in ahead && y !in aheadY;
      FirstExists(rows, ids, y);
    } else {
      assert First(rows, ids, x);
    }
  }

  /** The error stored with a row that dispatch rejects. */
  function PoisonText(e: NamedError, rules: Rules): string {
    "invalid callback spec: " + if e.NotFound? then "not found" else rules.message(e.reason)
  }

  /** What dispatch reads for each row. */
  function SpecsIn(events: map<nat, RawEvent>, rows: map<nat, Row>, rules: Rules): map<nat, Result<Target, NamedError>>
    requires forall id :: id in rows ==> rows[id].event in events
  {
    map id | id in rows :: ValidateNamed(events[rows[id].event].callbacks, rows[id].name, rules)
  }

  /** The deliveries `fetch_due_deliveries` returns for the selected ids. */
  function Accepted(rows: map<nat, Row>, specs: map<nat, Result<Target, NamedError>>, ids: seq<nat>): seq<DueDelivery>
    requires forall id :: id in ids ==> id in rows && id in specs
  {
    if ids == [] then []
    else
      var front, last := ids[..|ids| - 1], ids[|ids| - 1];
      if specs[last].Ok?
      then Accepted(rows, specs, front) + [DueDelivery(last, rows[last].attempts, specs[last].value)]
      else Accepted(rows, specs, front)
  }

  lemma {:induction false} AcceptedSpec(rows: map<nat, Row>, specs: map<nat, Result<Target, NamedError>>, ids: seq<nat>)
    requires forall id :: id in ids ==> id in rows && id in specs
    requires forall i, j :: 0 <= i < j < |ids| ==> ids[i] != ids[j]
    ensures var due := Accepted(rows, specs, ids);
            && |due| <= |ids|
            && (forall k :: 0 <= k < |due| ==> due[k].row in ids && specs[due[k].row] == Ok(due[k].target))
            && (forall k :: 0 <= k < |due| ==> due[k].attempts == rows[due[k].row].attempts)
            && (forall i, j :: 0 <= i < j < |due| ==> due[i].row != due[j].row)
            && (forall id :: id in ids && specs[id].Ok? ==> exists k :: 0 <= k < |due| && due[k].row == id)
    decreases |ids|
  {
    if ids != [] {
      var front, last := ids[..|ids| - 1], ids[|ids| - 1];
      AcceptedSpec(rows, specs, front);
      var before, due := Accepted(rows, specs, front), Accepted(rows, specs, ids);
      assert last !in front;
      forall id | id in ids && specs[id].Ok? ensures exists k :: 0 <= k < |due| && due[k].row == id {
        if id in front {
          var k :| 0 <= k < |before| && before[k].row == id;
          assert due[k].row == id;
        } else {
          assert due[|due| - 1].row == id;
        }
      }
    }
  }

  /** The table it leaves. */
  function Poisoned(rows: map<nat, Row>, specs: map<nat, Result<Target, NamedError>>, ids: seq<nat>, rules: Rules)
    : (r: map<nat, Row>)
    requires forall id :: id in ids ==> id in rows && id in specs
    ensures r.Keys == rows.Keys && forall id :: id in rows ==> r[id].event == rows[id].event
    ensures forall id :: id in rows && !(id in ids && specs[id].Err?) ==> r[id] == rows[id]
    ensures forall id :: id in ids && specs[id].Err? ==> r[id].deadLetter
  {
    if ids == [] then rows
    else
      var front, last := ids[..|ids| - 1], ids[|ids| - 1];
      var before := Poisoned(rows, specs, front, rules);
      assert forall id :: id in ids ==> id in front || id == last;
      if specs[last].Err? then before[last := PoisonRow(before[last], PoisonText(specs[last].error, rules))] else before
  }

  /** The sweep's LATERAL join for one row. */
  function ReadingIn(events: map<nat, RawEvent>, r: Row, rules: Rules, cast: Cast): Reading
    requires r.event in events
  {
    ReadingOf(events[r.event], r.name, rules, cast)
  }

  /** A waiting external row on which a cast fails. */
  predicate FailsOn(events: map<nat, RawEvent>, r: Row, rules: Rules, cast: Cast)
    requires r.event in events
  {
    r.mode.External? && Protocol.Waiting(r) && ReadingIn(events, r, rules, cast).Fails?
  }

  /** The rows the sweep updates, with what it reads for each. */
  function HungRows(events: map<nat, RawEvent>, rows: map<nat, Row>, rules: Rules, cast: Cast, at: Time)
    : (hung: map<nat, Hung>)
    requires forall id :: id in rows ==> rows[id].event in events
    ensures hung.Keys <= rows.Keys
  {
    map id | id in rows && ReadingIn(events, rows[id], rules, cast).Reads? &&
             TimedOut(rows[id], ReadingIn(events, rows[id], rules, cast).hung, at) ::
      ReadingIn(events, rows[id], rules, cast).hung
  }

  function SweptRows(rows: map<nat, Row>, hung: map<nat, Hung>, at: Time): (r: map<nat, Row>)
    ensures r.Keys == rows.Keys && forall id :: id in rows ==> r[id].event == rows[id].event
  {
    map id | id in rows :: if id in hung then SweepRow(rows[id], hung[id], at) else rows[id]
  }

  function WithFlag(rows: map<nat, Row>, ids: set<nat>, dead: bool): set<nat>
    requires ids <= rows.Keys
  {
    set id | id in ids && rows[id].deadLetter == dead
  }

  function ReportOn(rows: map<nat, Row>, swept: set<nat>): SweepReport
    requires swept <= rows.Keys
  {
    SweepReport(|WithFlag(rows, swept, false)|, |WithFlag(rows, swept, true)|)
  }

  lemma ReportOneMore(rows: map<nat, Row>, swept: set<nat>, id: nat)
    requires swept <= rows.Keys && id in rows && id !in swept
    ensures var (before, after) := (ReportOn(rows, swept), ReportOn(rows, swept + {id}));
            after == if rows[id].deadLetter then before.(exhausted := before.exhausted + 1)
                     else before.(reset := before.reset + 1)
  {
    var dead := rows[id].deadLetter;
    assert WithFlag(rows, swept + {id}, dead) == WithFlag(rows, swept, dead) + {id};
    assert WithFlag(rows, swept + {id}, !dead) == WithFlag(rows, swept, !dead);
  }

  class PgRepo {
    const rules: Rules
    const cast: Cast
    var events: map<nat, RawEvent>
    var rows: map<nat, Row>
    var nextRow: nat

    constructor (rules: Rules, cast: Cast)
      ensures Valid() && this.rules == rules && this.cast == cast && events == map[] && rows == map[] && nextRow == 1
    {
      this.rules, this.cast, events, rows, nextRow := rules, cast, map[], map[], 1;
    }

    /** The serial column and the foreign key. */
    ghost predicate Valid()
      reads this
    {
      forall id :: id in rows ==> id < nextRow && rows[id].event in events
    }

    // ---- scheduling ---------------------------------------------------------------------

    method FetchNewEvents(cursor: nat, limit: nat) returns (ids: seq<nat>)
      ensures ids == Batch(events, cursor, limit)
    {
      ids := TakeLeast(IdsAbove(events, cursor), limit);
    }

    /** `ensure_deliveries` and `create_invalid_deliveries`: INSERT ... ON CONFLICT DO NOTHING.
        It fails on a foreign key that is gone. */
    method InsertTuples(event: nat, entries: seq<Entry>, now: Time) returns (ok: bool)
      requires Valid()
      modifies this`rows, this`nextRow
      ensures Valid()
      ensures ok <==> entries == [] || event in events
      ensures ok ==> (rows, nextRow) == InsertRows(old(rows), old(nextRow), event, entries, now)
      ensures !ok ==> rows == old(rows) && nextRow == old(nextRow)
    {
      if entries == [] { return true; }
      if event !in events { return false; }
      var i := 0;
      while i < |entries|
        invariant 0 <= i <= |entries| && Valid()
        invariant InsertRows(rows, nextRow, event, entries[i..], now) ==
                  InsertRows(old(rows), old(nextRow), event, entries, now)
      {
        var e := entries[i];
        assert entries[i..][0] == e && entries[i..][1..] == entries[i + 1..];
        if !HasRow(rows, event, e.name) {
          rows := rows[nextRow := NewRow(event, e.name, e.mode, e.error, e.dead, now)];
        }
        nextRow := nextRow + 1;
        i := i + 1;
      }
      assert entries[i..] == [];
      return true;
    }

    method RecoverCursor() returns (cursor: nat)
      ensures rows == map[] ==> cursor == 0
      ensures rows != map[] ==> exists id :: id in rows && cursor == rows[id].event && forall j :: j in rows ==> j <= id
    {
      cursor := Protocol.RecoveredCursor(rows);
    }

    // ---- dispatch -------------------------------------------------------------------------

    /** The SELECT of `fetch_due_deliveries`. */
    method SelectDue(limit: nat, now: Time) returns (ids: seq<nat>)
      requires Valid()
      ensures |ids| <= limit && forall k :: 0 <= k < |ids| ==> ids[k] in rows && Due(rows[ids[k]], now)
      ensures forall i, j :: 0 <= i < j < |ids| ==> Before(rows, ids[i], ids[j])
      ensures forall id :: id in rows && Due(rows[id], now) && id !in ids ==>
                |ids| == limit && forall k :: 0 <= k < |ids| ==> Before(rows, ids[k], id)
    {
      ids := [];
      var left := set id | id in rows && Due(rows[id], now);
      while |ids| < limit && left != {}
        invariant |ids| <= limit && left <= rows.Keys
        invariant forall k :: 0 <= k < |ids| ==> ids[k] in rows && Due(rows[ids[k]], now)
        invariant forall i, j :: 0 <= i < j < |ids| ==> Before(rows, ids[i], ids[j])
        invariant forall k, y :: 0 <= k < |ids| && y in left ==> Before(rows, ids[k], y)
        invariant forall id :: id in rows && Due(rows[id], now) ==> id in left || id in ids
        decreases left
      {
        var some :| some in left;
        FirstExists(rows, left, some);
        var x :| First(rows, left, x);
        left := left - {x};
        ids := ids + [x];
      }
    }

    /** A selected row whose callback dispatch rejects is dead-lettered, every other one is returned. */
    method FetchDueDeliveries(limit: nat, now: Time) returns (due: seq<DueDelivery>, ghost ids: seq<nat>)
      requires Valid()
      modifies this`rows
      ensures Valid()
      ensures |ids| <= limit && forall k :: 0 <= k < |ids| ==> ids[k] in old(rows) && Due(old(rows)[ids[k]], now)
      ensures forall i, j :: 0 <= i < j < |ids| ==> Before(old(rows), ids[i], ids[j])
      ensures forall id :: id in old(rows) && Due(old(rows)[id], now) && id !in ids ==> |ids| == limit
      ensures due == Accepted(old(rows), SpecsIn(events, old(rows), rules), ids)
      ensures rows == Poisoned(old(rows), SpecsIn(events, old(rows), rules), ids, rules)
    {
      var selected := SelectDue(limit, now);
      ids := selected;
      due := ExtractTargets(selected, SpecsIn(events, rows, rules));
    }

    /** The loop of `fetch_due_deliveries`. */
    method ExtractTargets(ids: seq<nat>, specs: map<nat, Result<Target, NamedError>>) returns (due: seq<DueDelivery>)
      requires Valid() && forall id :: id in ids ==> id in rows && id in specs
      requires forall i, j :: 0 <= i < j < |ids| ==> ids[i] != ids[j]
      modifies this`rows
      ensures Valid()
      ensures due == Accepted(old(rows), specs, ids)
      ensures rows == Poisoned(old(rows), specs, ids, rules)
    {
      due := [];
      var k := 0;
      while k < |ids|
        invariant 0 <= k <= |ids|
        invariant due == Accepted(old(rows), specs, ids[..k])
        invariant rows == Poisoned(old(rows), specs, ids[..k], rules)
      {
        var id := ids[k];
        assert ids[..k + 1][..k] == ids[..k] && id !in ids[..k];
        if specs[id].Ok? {
          due := due + [DueDelivery(id, rows[id].attempts, specs[id].value)];
        } else {
          rows := rows[id := PoisonRow(rows[id], PoisonText(specs[id].error, rules))];
        }
        k := k + 1;
      }
      assert ids[..k] == ids;
    }

    method LockDelivery(id: nat, until: Time, now: Time) returns (locked: bool)
      requires Valid()
      modifies this`rows
      ensures Valid()
      ensures locked <==> id in old(rows) && Lockable(old(rows)[id], now)
      ensures rows == if locked then old(rows)[id := LockRow(old(rows)[id], until, now)] else old(rows)
    {
      locked := id in rows && Lockable(rows[id], now);
      if locked { rows := rows[id := LockRow(rows[id], until, now)]; }
    }

    method MarkDispatched(id: nat, mode: Mode, now: Time)
      requires Valid()
      modifies this`rows
      ensures Valid()
      ensures rows == if id in old(rows) then old(rows)[id := DispatchRow(old(rows)[id], mode, now)] else old(rows)
    {
      if id in rows { rows := rows[id := DispatchRow(rows[id], mode, now)]; }
    }

    method MarkFailure(id: nat, error: string, availableAt: Time, dead: bool)
      requires Valid()
      modifies this`rows
      ensures Valid()
      ensures rows == if id in old(rows) then old(rows)[id := FailRow(old(rows)[id], error, availableAt, dead)]
                      else old(rows)
    {
      if id in rows { rows := rows[id := FailRow(rows[id], error, availableAt, dead)]; }
    }

    // ---- sweep ------------------------------------------------------------------------------

    /** The statement fails as a whole if a cast fails on any waiting row. Otherwise every timed-out row
        is swept, and counted exactly once as reset or as exhausted. */
    method ResetHungExternal(at: Time) returns (r: Result<SweepReport, ()>)
      requires Valid()
      modifies this`rows
      ensures Valid()
      ensures r.Err? <==> exists id :: id in old(rows) && FailsOn(events, old(rows)[id], rules, cast)
      ensures r.Err? ==> rows == old(rows)
      ensures var hung := HungRows(events, old(rows), rules, cast, at);
              r.Ok? ==> rows == SweptRows(old(rows), hung, at) && r.value == ReportOn(rows, hung.Keys)
    {
      if exists id :: id in rows && FailsOn(events, rows[id], rules, cast) { return Err(()); }
      var hung := HungRows(events, rows, rules, cast, at);
      rows := SweptRows(rows, hung, at);
      var report := CountReport(rows, hung.Keys);
      r := Ok(report);
    }

    /** The loop over the sweep's RETURNING rows. */
    static method CountReport(table: map<nat, Row>, returned: set<nat>) returns (report: SweepReport)
      requires returned <= table.Keys
      ensures report == ReportOn(table, returned)
    {
      report := SweepReport(0, 0);
      var done, left := {}, returned;
      while left != {}
        invariant left <= returned && done == returned - left
        invariant report == ReportOn(table, done)
        decreases left
      {
        var id :| id in left;
        ReportOneMore(table, done, id);
        if table[id].deadLetter {
          report := report.(exhausted := report.exhausted + 1);
        } else {
          report := report.(reset := report.reset + 1);
        }
        done, left := done + {id}, left - {id};
      }
      assert done == returned;
    }

    // ---- operator actions ---------------------------------------------------------------------

    method RetryDelivery(id: nat, now: Time) returns (outcome: RetryOutcome)
      requires Valid()
      modifies this`rows
      ensures Valid()
      ensures outcome.Missing? <==> id !in old(rows)
      ensures outcome.Locked? <==> id in old(rows) && !Free(old(rows)[id], now)
      ensures rows == if outcome.Reset? then old(rows)[id := RetryRow(old(rows)[id], now)] else old(rows)
    {
      if id in rows && Free(rows[id], now) {
        rows := rows[id := RetryRow(rows[id], now)];
        return Reset;
      }
      outcome := if id in rows then Locked else Missing;
    }

    method CompleteDelivery(id: nat, now: Time) returns (found: bool)
      requires Valid()
      modifies this`rows
      ensures Valid() && (found <==> id in old(rows))
      ensures rows == if found then old(rows)[id := CompleteRow(old(rows)[id], now)] else old(rows)
    {
      found := id in rows;
      if found { rows := rows[id := CompleteRow(rows[id], now)]; }
    }

    method AbandonDelivery(id: nat) returns (found: bool)
      requires Valid()
      modifies this`rows
      ensures Valid() && (found <==> id in old(rows))
      ensures rows == if found then old(rows)[id := AbandonRow(old(rows)[id])] else old(rows)
    {
      found := id in rows;
      if found { rows := rows[id := AbandonRow(rows[id])]; }
    }

    // ---- retention ------------------------------------------------------------------------------

    /** The counts of the two classes add up to the events removed. An event that goes had only terminal
        deliveries and was older than the cutoff of its class; every other event and row stays. */
    method DeleteTerminalEvents(c: Cutoffs, limit: nat) returns (deleted: Deleted)
      requires Valid()
      modifies this`events, this`rows
      ensures Valid()
      ensures (events, rows) == Cycle((old(events), old(rows)), c, limit)
      ensures var doomed := Doomed(old(events), old(rows), c, limit);
              && deleted.processed + deleted.deadLetter == |doomed| <= limit
              && deleted.deadLetter == |DeadClass(old(rows), doomed)|
      ensures forall e :: e in old(events) && e !in events ==>
                && (forall id :: id in old(rows) && old(rows)[id].event == e ==> !Live(old(rows)[id]))
                && old(events)[e].createdAt < (if HasDead(old(rows), e) then c.deadLetter else c.processed)
      ensures forall e :: e in events ==> e in old(events) && events[e] == old(events)[e]
    {
      var candidates := TakeLeast(EligibleSet(events, rows, c), limit);
      deleted := CountReasons(candidates, rows);
      var doomed := Elements(candidates);
      assert forall e :: e in candidates ==> e in Ascending(EligibleSet(events, rows, c));
      events, rows := Without(events, doomed), Cascade(rows, doomed);
    }

    /** The loop over the reasons the statement returns. */
    static method CountReasons(candidates: seq<nat>, table: map<nat, Row>) returns (deleted: Deleted)
      requires Increasing(candidates)
      ensures deleted.processed + deleted.deadLetter == |Elements(candidates)|
      ensures deleted.deadLetter == |DeadClass(table, Elements(candidates))|
    {
      deleted := Deleted(0, 0);
      var i := 0;
      while i < |candidates|
        invariant 0 <= i <= |candidates| && deleted.processed + deleted.deadLetter == i
        invariant deleted.deadLetter == |DeadClass(table, Elements(candidates[..i]))|
      {
        var e := candidates[i];
        assert e !in candidates[..i];
        assert Elements(candidates[..i + 1]) == Elements(candidates[..i]) + {e};
        ghost var dead := DeadClass(table, Elements(candidates[..i]));
        ghost var dead' := DeadClass(table, Elements(candidates[..i + 1]));
        if HasDead(table, e) {
          assert dead' == dead + {e};
          deleted := deleted.(deadLetter := deleted.deadLetter + 1);
        } else {
          assert dead' == dead;
          deleted := deleted.(processed := deleted.processed + 1);
        }
        i := i + 1;
      }
      assert candidates[..i] == candidates;
      Distinct(candidates);
    }

    method OldestTerminalAge(c: Cutoffs, now: Time) returns (age: Option<real>)
      ensures IsOldestAge(events, EligibleSet(events, rows, c), now, age)
    {
      age := OldestAge(events, EligibleSet(events, rows, c), now);
    }

    /** now() - MIN(created_at) over these events. */
    static method OldestAge(events: map<nat, RawEvent>, ids: set<nat>, now: Time) returns (age: Option<real>)
      requires ids <= events.Keys
      ensures IsOldestAge(events, ids, now, age)
    {
      age := None;
      var left := ids;
      while left != {}
        invariant left <= ids
        invariant age.None? ==> left == ids
        invariant age.Some? ==> exists e :: e in ids && now - events[e].createdAt == age.value
        invariant age.Some? ==> forall e :: e in ids - left ==> now - events[e].createdAt <= age.value
        decreases left
      {
        var e :| e in left;
        if age.None? || now - events[e].createdAt > age.value { age := Some(now - events[e].createdAt); }
        left := left - {e};
      }
    }

    // ---- statistics -------------------------------------------------------------------------------

    /** The groups of GROUP BY are collected one by one. */
    method FetchStats(now: Time) returns (stats: Stats)
      requires Valid()
      ensures stats.eventsTotal == |events| && stats.pending == |PendingIds(rows)|
      ensures stats.awaitingCompletion == |Of(rows, AwaitingCompletion)|
      ensures stats.deadLettered == |Of(rows, DeadLettered)|
      ensures IsOldestAge(events, PendingEvents(rows), now, stats.oldestPendingAge)
      ensures stats.callbacks == map n | n in Names(rows) :: Group(rows, n)
    {
      var oldest := OldestAge(events, PendingEvents(rows), now);
      var callbacks := CollectGroups(rows);
      stats := Stats(|events|, |PendingIds(rows)|, |Of(rows, AwaitingCompletion)|, |Of(rows, DeadLettered)|, oldest,
                     callbacks);
    }

    static method CollectGroups(table: map<nat, Row>) returns (callbacks: map<string, CallbackStats>)
      ensures callbacks == map n | n in Names(table) :: Group(table, n)
    {
      callbacks := map[];
      var left := Names(table);
      while left != {}
        invariant left <= Names(table)
        invariant callbacks == map n | n in Names(table) - left :: Group(table, n)
        decreases left
      {
        var n :| n in left;
        callbacks := callbacks[n := Group(table, n)];
        left := left - {n};
      }
    }
  }
}
