/** Which events retention deletes, and how its cycles end. */
module Retention {
  import opened Basics
  import opened Table
  import opened Interpretation
  import opened Ordered
  import Protocol

  datatype Cutoffs = Cutoffs(deadLetter: Time, processed: Time)

  type Tables = (map<nat, RawEvent>, map<nat, Row>)

  datatype Deleted = Deleted(processed: nat, deadLetter: nat)

  predicate HasDead(rows: map<nat, Row>, event: nat) {
    exists id :: id in rows && rows[id].event == event && rows[id].deadLetter
  }

  /** WHERE clause of `delete_terminal_events`. */
  predicate Eligible(events: map<nat, RawEvent>, rows: map<nat, Row>, c: Cutoffs, e: nat) {
    && e in events && Protocol.NoLiveRow(rows, e)
    && events[e].createdAt < if HasDead(rows, e) then c.deadLetter else c.processed
  }

  function DeadClass(rows: map<nat, Row>, doomed: set<nat>): set<nat> {
    set e | e in doomed && HasDead(rows, e)
  }

  function EligibleSet(events: map<nat, RawEvent>, rows: map<nat, Row>, c: Cutoffs): set<nat> {
    set e | e in events && Eligible(events, rows, c, e)
  }

  /** ORDER BY id LIMIT `limit`. */
  ghost function Doomed(events: map<nat, RawEvent>, rows: map<nat, Row>, c: Cutoffs, limit: nat): (doomed: set<nat>)
    ensures doomed <= EligibleSet(events, rows, c)
    ensures |doomed| == Min(limit, |EligibleSet(events, rows, c)|)
    ensures forall e, f :: e in doomed && f in EligibleSet(events, rows, c) - doomed ==> e < f
  {
    var s := Ascending(EligibleSet(events, rows, c));
    var n := Min(limit, |s|);
    FirstElements(s, n);
    Elements(s[..n])
  }

  // ---- DELETE with ON DELETE CASCADE -------------------------------------------------------------

  function Without(events: map<nat, RawEvent>, doomed: set<nat>): map<nat, RawEvent> {
    map e | e in events && e !in doomed :: events[e]
  }

  function Cascade(rows: map<nat, Row>, doomed: set<nat>): map<nat, Row> {
    map id | id in rows && rows[id].event !in doomed :: rows[id]
  }

  /** Nothing else becomes eligible or stops being so. */
  lemma OthersUnaffected(events: map<nat, RawEvent>, rows: map<nat, Row>, c: Cutoffs, doomed: set<nat>)
    ensures EligibleSet(Without(events, doomed), Cascade(rows, doomed), c) == EligibleSet(events, rows, c) - doomed
  {
    var rows' := Cascade(rows, doomed);
    forall e | e !in doomed
      ensures Eligible(Without(events, doomed), rows', c, e) <==> Eligible(events, rows, c, e)
    {
      SameRows(rows, doomed, e);
    }
  }

  lemma SameRows(rows: map<nat, Row>, doomed: set<nat>, e: nat)
    requires e !in doomed
    ensures Protocol.NoLiveRow(Cascade(rows, doomed), e) <==> Protocol.NoLiveRow(rows, e)
    ensures HasDead(Cascade(rows, doomed), e) <==> HasDead(rows, e)
  {
    var rows' := Cascade(rows, doomed);
    assert forall id :: id in rows && rows[id].event == e ==> id in rows' && rows'[id] == rows[id];
    if HasDead(rows, e) {
      var id :| id in rows && rows[id].event == e && rows[id].deadLetter;
      assert id in rows';
    }
  }

  /** A deleted event had no live delivery: retention is a step of the state machine. */
  lemma NothingLiveDeleted(events: map<nat, RawEvent>, rows: map<nat, Row>, c: Cutoffs, limit: nat)
    ensures Protocol.NothingLive(rows, Doomed(events, rows, c, limit))
  {
    var doomed := Doomed(events, rows, c, limit);
    forall e | e in doomed ensures Protocol.NoLiveRow(rows, e) { assert e in EligibleSet(events, rows, c); }
  }

  // ---- exactly which events --------------------------------------------------------------------------

  /** The eligible events with smaller ids. */
  function EligibleBelow(events: map<nat, RawEvent>, rows: map<nat, Row>, c: Cutoffs, e: nat): set<nat> {
    set f | f in EligibleSet(events, rows, c) && f < e
  }

  /** A cycle deletes an event exactly if none of its deliveries is live, the window of its class has
      passed, and fewer than `limit` such events have smaller ids. */
  lemma DeletedExactly(db: Tables, c: Cutoffs, limit: nat, e: nat)
    requires e in db.0
    ensures e !in Cycle(db, c, limit).0 <==>
              && (forall id :: id in db.1 && db.1[id].event == e ==> !Live(db.1[id]))
              && db.0[e].createdAt < (if HasDead(db.1, e) then c.deadLetter else c.processed)
              && |EligibleBelow(db.0, db.1, c, e)| < limit
  {
    var all, doomed := EligibleSet(db.0, db.1, c), Doomed(db.0, db.1, c, limit);
    var below := EligibleBelow(db.0, db.1, c, e);
    if e in all {
      if e in doomed {
        assert below <= doomed - {e};
        SubsetSize(below, doomed - {e});
      } else {
        assert doomed <= below;
        SubsetSize(doomed, below);
        assert e in all - doomed;
        if |doomed| < limit { SubsetSize(doomed + {e}, all); }
      }
    }
  }

  lemma {:induction false} SubsetSize(a: set<nat>, b: set<nat>)
    requires a <= b
    ensures |a| <= |b|
  {
    assert b == a + (b - a);
  }

  /** A cycle deletes an event that was never scheduled on age alone. */
  lemma UnscheduledExactly(db: Tables, c: Cutoffs, limit: nat, e: nat)
    requires e in db.0 && forall id :: id in db.1 ==> db.1[id].event != e
    ensures e !in Cycle(db, c, limit).0 <==>
              db.0[e].createdAt < c.processed && |EligibleBelow(db.0, db.1, c, e)| < limit
  {
    DeletedExactly(db, c, limit, e);
  }

  // ---- cycles ----------------------------------------------------------------------------------------

  ghost function Cycle(db: Tables, c: Cutoffs, limit: nat): Tables {
    var doomed := Doomed(db.0, db.1, c, limit);
    (Without(db.0, doomed), Cascade(db.1, doomed))
  }

  ghost function Cycles(db: Tables, c: Cutoffs, limit: nat, k: nat): Tables
    decreases k
  {
    if k == 0 then db else Cycles(Cycle(db, c, limit), c, limit, k - 1)
  }

  lemma CycleShrinks(db: Tables, c: Cutoffs, limit: nat)
    ensures var n := |EligibleSet(db.0, db.1, c)|;
            var db' := Cycle(db, c, limit);
            |EligibleSet(db'.0, db'.1, c)| == n - Min(n, limit)
  {
    var all, doomed := EligibleSet(db.0, db.1, c), Doomed(db.0, db.1, c, limit);
    OthersUnaffected(db.0, db.1, c, doomed);
    assert |all| == |all - doomed| + |doomed| by { assert all == (all - doomed) + doomed; }
  }

  /** With fixed cutoffs, nothing eligible is left after exactly ⌈n / limit⌉ cycles. */
  lemma {:induction false} CyclesEmpty(db: Tables, c: Cutoffs, limit: nat, k: nat)
    requires limit >= 1
    ensures var after := Cycles(db, c, limit, k);
            EligibleSet(after.0, after.1, c) == {} <==> k >= Ceil(|EligibleSet(db.0, db.1, c)|, limit)
    decreases k
  {
    if k == 0 {
      assert EligibleSet(db.0, db.1, c) == {} <==> |EligibleSet(db.0, db.1, c)| == 0;
    } else {
      var db' := Cycle(db, c, limit);
      CycleShrinks(db, c, limit);
      CyclesEmpty(db', c, limit, k - 1);
    }
  }

  /** The age of the oldest of these events. */
  ghost predicate IsOldestAge(events: map<nat, RawEvent>, ids: set<nat>, now: Time, age: Option<real>)
    requires ids <= events.Keys
  {
    if age.None? then ids == {}
    else
      && (exists e :: e in ids && now - events[e].createdAt == age.value)
      && forall e :: e in ids ==> now - events[e].createdAt <= age.value
  }
}

/** The worker's cycle. */
module RetentionWorker {
  import opened Basics
  import opened Retention
  import opened Repository

  const SECONDS_PER_DAY := 86400.0

  /** `run_retention_cycle`: one batch, then the age of the oldest event still eligible. */
  method RunCycle(repo: PgRepo, now: Time, processedDays: nat, deadLetterDays: nat, limit: nat)
    returns (deleted: Deleted, oldest: Option<real>, ghost c: Cutoffs)
    requires repo.Valid()
    modifies repo`events, repo`rows
    ensures repo.Valid()
    ensures c == Cutoffs(now - deadLetterDays as real * SECONDS_PER_DAY, now - processedDays as real * SECONDS_PER_DAY)
    ensures (repo.events, repo.rows) == Cycle((old(repo.events), old(repo.rows)), c, limit)
    ensures deleted.processed + deleted.deadLetter == Min(limit, |EligibleSet(old(repo.events), old(repo.rows), c)|)
    ensures oldest.None? <==> |EligibleSet(old(repo.events), old(repo.rows), c)| <= limit
  {
    var cutoffs := Cutoffs(now - deadLetterDays as real * SECONDS_PER_DAY,
                           now - processedDays as real * SECONDS_PER_DAY);
    c := cutoffs;
    CycleShrinks((repo.events, repo.rows), c, limit);
    deleted := repo.DeleteTerminalEvents(cutoffs, limit);
    oldest := repo.OldestTerminalAge(cutoffs, now);
    ghost var left := EligibleSet(repo.events, repo.rows, c);
    assert left == {} <==> |left| == 0;
  }
}
