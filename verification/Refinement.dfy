/** The repository's statements are steps of the state machine. */
module Refinement {
  import opened Basics
  import opened Table
  import opened Callbacks
  import opened Agreement
  import opened Interpretation
  import opened Protocol
  import opened Repository
  import opened Runs
  import opened Retry
  import Dispatch
  import Retention

  /** The machine's state has these tables. */
  ghost predicate Shows(s: State, events: map<nat, RawEvent>, rows: map<nat, Row>, rules: Rules, cast: Cast) {
    s.rows == rows && FromStore(s, events, rules, cast) && forall id :: id in rows ==> rows[id].event in events
  }

  /** Dispatch reads for a row what the machine says it reads. */
  lemma SpecRefines(s: State, events: map<nat, RawEvent>, rows: map<nat, Row>, rules: Rules, cast: Cast, id: nat)
    requires Shows(s, events, rows, rules, cast) && id in rows
    ensures var spec := SpecsIn(events, rows, rules)[id];
            Spec(s, id) == if spec.Ok? then Some(spec.value) else None
  {
    var raw, name := events[rows[id].event], rows[id].name;
    assert s.events[rows[id].event] == Interpret(raw, rules, cast);
    if ValidateNamed(raw.callbacks, name, rules).Ok? { NamedIsListed(raw.callbacks, name, rules); }
  }

  /** Every delivery that is returned is a fetch of the machine, with the same snapshot. */
  lemma FetchRefines(s: State, events: map<nat, RawEvent>, rows: map<nat, Row>, rules: Rules, cast: Cast, ids: seq<nat>,
                     k: nat, t: nat)
    requires Shows(s, events, rows, rules, cast) && t !in s.tasks
    requires forall id :: id in ids ==> id in rows && Due(rows[id], s.now)
    requires forall i, j :: 0 <= i < j < |ids| ==> ids[i] != ids[j]
    requires k < |Accepted(rows, SpecsIn(events, rows, rules), ids)|
    ensures var d := Accepted(rows, SpecsIn(events, rows, rules), ids)[k];
            && Enabled(s, Fetch(t, d.row))
            && Apply(s, Fetch(t, d.row)) == SetTask(s, t, Task(d.row, d.attempts, d.target, Fetched))
  {
    var specs := SpecsIn(events, rows, rules);
    AcceptedSpec(rows, specs, ids);
    SpecRefines(s, events, rows, rules, cast, Accepted(rows, specs, ids)[k].row);
  }

  lemma PoisonedOne(rows: map<nat, Row>, specs: map<nat, Result<Target, NamedError>>, id: nat, rules: Rules)
    requires id in rows && id in specs && specs[id].Err?
    ensures Poisoned(rows, specs, [id], rules) == rows[id := PoisonRow(rows[id], PoisonText(specs[id].error, rules))]
  {
    assert [id][..0] == [];
  }

  /** Every row a fetch dead-letters is a poison-pill step. */
  lemma PoisonRefines(s: State, events: map<nat, RawEvent>, rows: map<nat, Row>, rules: Rules, cast: Cast, id: nat)
    requires Shows(s, events, rows, rules, cast) && id in rows && SpecsIn(events, rows, rules)[id].Err?
    ensures var error := PoisonText(SpecsIn(events, rows, rules)[id].error, rules);
            && Enabled(s, Poison(id, error))
            && Apply(s, Poison(id, error)).rows == Poisoned(rows, SpecsIn(events, rows, rules), [id], rules)
  {
    SpecRefines(s, events, rows, rules, cast, id);
    PoisonedOne(rows, SpecsIn(events, rows, rules), id, rules);
  }

  function Snapshot(events: map<nat, Event>, ids: seq<nat>): seq<Event>
    requires forall id :: id in ids ==> id in events
  {
    seq(|ids|, i requires 0 <= i < |ids| => assert ids[i] in ids; events[ids[i]])
  }

  /** What `fetch_new_events` selects is a batch of the machine. */
  lemma BatchRefines(events: map<nat, Event>, raws: map<nat, RawEvent>, cursor: nat, limit: nat)
    requires events.Keys == raws.Keys && forall e :: e in events ==> events[e].id == e
    ensures IsBatch(events, cursor, Snapshot(events, Batch(raws, cursor, limit)))
  {
    var all, ids := Above(raws, cursor), Batch(raws, cursor, limit);
    var batch := Snapshot(events, ids);
    forall j | 0 <= j < |batch|
      ensures batch[j].id == ids[j] && ids[j] in events && cursor < ids[j]
    {
      assert ids[j] in ids;
    }
    forall e | e in events && cursor < e && batch != [] && e <= batch[|batch| - 1].id ensures events[e] in batch {
      assert e in IdsAbove(raws, cursor);
      assert e in all;
      var j :| 0 <= j < |all| && all[j] == e;
      assert j < |ids|;
      assert batch[j] == events[e];
    }
  }

  /** The sweep reads for an external row what the machine says it reads. */
  lemma ReadingRefines(s: State, events: map<nat, RawEvent>, rows: map<nat, Row>, rules: Rules, cast: Cast, id: nat)
    requires Attainable(s) && Shows(s, events, rows, rules, cast) && id in rows && rows[id].mode.External?
    ensures var reading := ReadingIn(events, rows[id], rules, cast);
            && HungOf(s, id) == (if reading.Reads? then Some(reading.hung) else None)
            && (Breaks(s, id) <==> FailsOn(events, rows[id], rules, cast))
  {
    ExternalIsListed(s, events, rules, cast, id);
    assert s.events[rows[id].event] == Interpret(events[rows[id].event], rules, cast);
  }

  /** The sweep statement succeeds exactly if the sweep step is enabled. */
  lemma SweepFailsTogether(s: State, events: map<nat, RawEvent>, rows: map<nat, Row>, rules: Rules, cast: Cast,
                           at: Time)
    requires Attainable(s) && Shows(s, events, rows, rules, cast) && at <= s.now
    ensures Enabled(s, Sweep(at)) <==> forall id :: id in rows ==> !FailsOn(events, rows[id], rules, cast)
  {
    forall id | id in rows ensures Breaks(s, id) <==> FailsOn(events, rows[id], rules, cast) {
      if rows[id].mode.External? { ReadingRefines(s, events, rows, rules, cast, id); }
    }
  }

  lemma HitRefines(s: State, events: map<nat, RawEvent>, rows: map<nat, Row>, rules: Rules, cast: Cast, at: Time,
                   id: nat)
    requires Attainable(s) && Shows(s, events, rows, rules, cast) && id in rows
    ensures var hung := HungRows(events, rows, rules, cast, at);
            (id in hung <==> SweepHits(s, id, at)) && (id in hung ==> HungOf(s, id) == Some(hung[id]))
  {
    if rows[id].mode.External? { ReadingRefines(s, events, rows, rules, cast, id); }
  }

  lemma SweepMatches(s: State, hung: map<nat, Hung>, at: Time)
    requires forall id :: id in s.rows ==> (id in hung <==> SweepHits(s, id, at))
    requires forall id :: id in s.rows && id in hung ==> HungOf(s, id) == Some(hung[id])
    ensures DoSweep(s, at).rows == SweptRows(s.rows, hung, at)
  {
  }

  /** And then it leaves the rows the step leaves. */
  lemma SweepRefines(s: State, events: map<nat, RawEvent>, rows: map<nat, Row>, rules: Rules, cast: Cast, at: Time)
    requires Attainable(s) && Shows(s, events, rows, rules, cast) && Enabled(s, Sweep(at))
    ensures Apply(s, Sweep(at)).rows == SweptRows(rows, HungRows(events, rows, rules, cast, at), at)
  {
    var hung := HungRows(events, rows, rules, cast, at);
    forall id | id in s.rows
      ensures (id in hung <==> SweepHits(s, id, at)) && (id in hung ==> HungOf(s, id) == Some(hung[id]))
    {
      HitRefines(s, events, rows, rules, cast, at, id);
    }
    SweepMatches(s, hung, at);
  }

  /** A retention cycle is a retention step, and the tables it leaves are the machine's. */
  lemma RetainRefines(s: State, events: map<nat, RawEvent>, rows: map<nat, Row>, rules: Rules, cast: Cast,
                      c: Retention.Cutoffs, limit: nat)
    requires Shows(s, events, rows, rules, cast)
    ensures var doomed := Retention.Doomed(events, rows, c, limit);
            && Enabled(s, Retain(doomed))
            && Shows(Apply(s, Retain(doomed)), Retention.Without(events, doomed), Retention.Cascade(rows, doomed),
                     rules, cast)
  {
    Retention.NothingLiveDeleted(events, rows, c, limit);
  }

  // ---- one dispatch ------------------------------------------------------------------------------------

  /** The write-back of a trip. */
  function WriteBack(t: nat, task: Task, trip: Dispatch.Trip): Step {
    match trip.outcome
    case Delivered => Succeed(t)
    case Transient(reason, retryAfter) =>
      Fail(t, reason, NextAvailable(task.attempts + 1, retryAfter, task.target.backoff, trip.jitter, trip.doneAt))
    case Expired =>
      Fail(t, "callback timeout", NextAvailable(task.attempts + 1, None, task.target.backoff, trip.jitter, trip.doneAt))
  }

  /** `dispatch_one` undisturbed is lock, wait, write-back: a well-timed run that leaves the row it says it leaves. */
  lemma DispatchRefines(s: State, t: nat, trip: Dispatch.Trip)
    requires t in s.tasks && s.tasks[t].stage.Fetched? && s.tasks[t].row in s.rows
    requires Lockable(s.rows[s.tasks[t].row], s.now)
    requires trip.lockOk && trip.writeOk
    requires trip.start <= trip.lockedAt == s.now <= trip.doneAt
    requires trip.doneAt <= trip.start + s.tasks[t].target.timeout as real + s.lockBuffer
    ensures var task := s.tasks[t];
            var due := DueDelivery(task.row, task.attempts, task.target);
            var run := [Take(t, trip.start), Tick(trip.doneAt), WriteBack(t, task, trip)];
            && ValidRun(s, run)
            && Final(s, run).rows ==
                 s.rows[task.row := Dispatch.Settled(s.rows[task.row], due, s.lockBuffer, trip)]
  {
    var task := s.tasks[t];
    var s2 := LockThenWait(s, t, trip.start, trip.doneAt);
    WriteBackRow(s2, t, task, trip);
    ThreeSteps(s, Take(t, trip.start), Tick(trip.doneAt), WriteBack(t, task, trip));
  }

  lemma LockThenWait(s: State, t: nat, start: Time, done: Time) returns (s2: State)
    requires t in s.tasks && s.tasks[t].stage.Fetched? && CanLock(s, t) && start <= s.now <= done
    requires done <= start + s.tasks[t].target.timeout as real + s.lockBuffer
    ensures var task := s.tasks[t];
            var until := start + task.target.timeout as real + s.lockBuffer;
            && Enabled(s, Take(t, start)) && Enabled(Apply(s, Take(t, start)), Tick(done))
            && s2 == Apply(Apply(s, Take(t, start)), Tick(done)) && Flying(s2, t) && s2.now == done
            && s2.tasks[t].row == task.row && s2.tasks[t].target == task.target && s2.tasks[t].attempts == task.attempts
            && s2.rows == s.rows[task.row := LockRow(s.rows[task.row], until, s.now)]
  {
    var s1 := Apply(s, Take(t, start));
    s2 := Apply(s1, Tick(done));
  }

  lemma WriteBackRow(s: State, t: nat, task: Task, trip: Dispatch.Trip)
    requires Flying(s, t) && s.tasks[t].row in s.rows && s.now == trip.doneAt
    requires s.tasks[t].row == task.row && s.tasks[t].target == task.target && s.tasks[t].attempts == task.attempts
    ensures Enabled(s, WriteBack(t, task, trip)) && WellTimed(s, WriteBack(t, task, trip))
    ensures var due := DueDelivery(task.row, task.attempts, task.target);
            Apply(s, WriteBack(t, task, trip)).rows ==
              s.rows[task.row := Dispatch.Answered(s.rows[task.row], due, trip)]
  {
  }

  lemma ThreeSteps(s: State, a: Step, b: Step, c: Step)
    requires Enabled(s, a) && WellTimed(s, a)
    requires Enabled(Apply(s, a), b) && WellTimed(Apply(s, a), b)
    requires Enabled(Apply(Apply(s, a), b), c) && WellTimed(Apply(Apply(s, a), b), c)
    ensures ValidRun(s, [a, b, c]) && Final(s, [a, b, c]) == Apply(Apply(Apply(s, a), b), c)
  {
    var s1 := Apply(s, a);
    var s2 := Apply(s1, b);
    var s3 := Apply(s2, c);
    assert [a, b, c][1..] == [b, c] && [b, c][1..] == [c] && [c][1..] == [];
    assert ValidRun(s3, []) && Final(s3, []) == s3;
    assert ValidRun(s2, [c]) && Final(s2, [c]) == s3;
    assert ValidRun(s1, [b, c]) && Final(s1, [b, c]) == s3;
  }

  // ---- one statement, one step -----------------------------------------------------------------------------

  /** The machine's state has the repository's rows, serial column and event ids. The statements below leave the
      events themselves alone, so what these say stays as it is. */
  ghost predicate Mirrors(s: State, repo: PgRepo)
    reads repo
  {
    s.rows == repo.rows && s.nextRow == repo.nextRow && s.events.Keys == repo.events.Keys
  }

  /** What the steps of one dispatch do to the table. */
  lemma LockStep(s: State, t: nat, start: Time)
    requires t in s.tasks && s.tasks[t].stage.Fetched? && start <= s.now
    ensures Enabled(s, Take(t, start)) <==> CanLock(s, t)
    ensures Enabled(s, Skip(t)) <==> !CanLock(s, t)
    ensures var s' := if CanLock(s, t) then Apply(s, Take(t, start)) else Apply(s, Skip(t));
            var until := start + s.tasks[t].target.timeout as real + s.lockBuffer;
            var id := s.tasks[t].row;
            && s'.events == s.events && s'.nextRow == s.nextRow
            && s'.rows == if CanLock(s, t) then s.rows[id := LockRow(s.rows[id], until, s.now)] else s.rows
  {
  }

  lemma SucceedStep(s: State, t: nat)
    requires t in s.tasks && s.tasks[t].stage.InFlight?
    ensures var id := s.tasks[t].row;
            && (Enabled(s, Succeed(t)) <==> id in s.rows) && (Enabled(s, Lose(t)) <==> id !in s.rows)
            && var s' := if id in s.rows then Apply(s, Succeed(t)) else Apply(s, Lose(t));
               var mode := s.tasks[t].target.mode;
               && s'.events == s.events && s'.nextRow == s.nextRow
               && s'.rows == if id in s.rows then s.rows[id := DispatchRow(s.rows[id], mode, s.now)] else s.rows
  {
  }

  lemma FailStep(s: State, t: nat, error: string, at: Time)
    requires t in s.tasks && s.tasks[t].stage.InFlight?
    ensures var id := s.tasks[t].row;
            var dead := s.tasks[t].attempts + 1 >= s.tasks[t].target.maxAttempts;
            && (Enabled(s, Fail(t, error, at)) <==> id in s.rows) && (Enabled(s, Lose(t)) <==> id !in s.rows)
            && var s' := if id in s.rows then Apply(s, Fail(t, error, at)) else Apply(s, Lose(t));
               && s'.events == s.events && s'.nextRow == s.nextRow
               && s'.rows == if id in s.rows then s.rows[id := FailRow(s.rows[id], error, at, dead)] else s.rows
  {
  }

  /** The greatest row id is unique. */
  lemma CursorIs(rows: map<nat, Row>, cursor: nat)
    requires rows == map[] ==> cursor == 0
    requires rows != map[] ==>
               exists id :: id in rows && cursor == rows[id].event && forall j :: j in rows ==> j <= id
    ensures cursor == RecoveredCursor(rows)
  {
    if rows != map[] {
      var id :| id in rows && cursor == rows[id].event && forall j :: j in rows ==> j <= id;
      assert id == Newest(rows);
    }
  }

  lemma InsertStep(s: State, p: nat)
    requires p in s.scheds && CanInsert(s.scheds[p])
    ensures var c := s.scheds[p];
            && (Enabled(s, Insert(p)) <==> c.batch[c.i].id in s.events)
            && (Enabled(s, Insert(p)) ==>
                  var s' := Apply(s, Insert(p));
                  && s'.events == s.events
                  && (s'.rows, s'.nextRow) ==
                       InsertRows(s.rows, s.nextRow, c.batch[c.i].id, c.batch[c.i].plan[c.k], s.now))
  {
  }

  /** The INSERT of a scheduler's next statement, which is never empty for a stored event, is the insertion step;
      it fails exactly if retention has deleted the event. */
  method InsertIsStep(repo: PgRepo, ghost s: State, ghost p: nat, event: nat, entries: seq<Entry>, now: Time)
    returns (ok: bool, ghost s': State)
    requires repo.Valid() && Mirrors(s, repo) && now == s.now && p in s.scheds && CanInsert(s.scheds[p])
    requires var c := s.scheds[p]; c.batch[c.i].id == event && c.batch[c.i].plan[c.k] == entries != []
    modifies repo`rows, repo`nextRow
    ensures repo.Valid() && Mirrors(s', repo) && s'.events == s.events
    ensures ok <==> Enabled(s, Insert(p))
    ensures s' == if ok then Apply(s, Insert(p)) else s
  {
    InsertStep(s, p);
    ok := repo.InsertTuples(event, entries, now);
    s' := if ok then Apply(s, Insert(p)) else s;
  }

  /** A lock is the taking step if it finds the row, and the skipping step if it does not. */
  method LockIsStep(repo: PgRepo, ghost s: State, ghost t: nat, due: DueDelivery, buffer: Time, start: Time, now: Time)
    returns (locked: bool, ghost s': State)
    requires repo.Valid() && Mirrors(s, repo) && start <= now == s.now && buffer == s.lockBuffer
    requires t in s.tasks && s.tasks[t] == Task(due.row, due.attempts, due.target, Fetched)
    modifies repo`rows
    ensures repo.Valid() && Mirrors(s', repo) && s'.events == s.events
    ensures (locked <==> Enabled(s, Take(t, start))) && (!locked <==> Enabled(s, Skip(t)))
    ensures s' == if locked then Apply(s, Take(t, start)) else Apply(s, Skip(t))
  {
    LockStep(s, t, start);
    s' := if CanLock(s, t) then Apply(s, Take(t, start)) else Apply(s, Skip(t));
    locked := repo.LockDelivery(due.row, start + due.target.timeout as real + buffer, now);
  }

  /** A success is the success step, or the losing step if the row is gone. */
  method DispatchedIsStep(repo: PgRepo, ghost s: State, ghost t: nat, row: nat, mode: Mode, now: Time)
    returns (ghost s': State)
    requires repo.Valid() && Mirrors(s, repo) && now == s.now
    requires t in s.tasks && s.tasks[t].stage.InFlight? && s.tasks[t].row == row && s.tasks[t].target.mode == mode
    modifies repo`rows
    ensures repo.Valid() && Mirrors(s', repo) && s'.events == s.events
    ensures if Enabled(s, Succeed(t)) then s' == Apply(s, Succeed(t))
            else Enabled(s, Lose(t)) && s' == Apply(s, Lose(t))
  {
    SucceedStep(s, t);
    s' := if row in s.rows then Apply(s, Succeed(t)) else Apply(s, Lose(t));
    repo.MarkDispatched(row, mode, now);
  }

  /** So is a failure, with the dead-letter decision made on the fetched count. */
  method FailureIsStep(repo: PgRepo, ghost s: State, ghost t: nat, due: DueDelivery, error: string, at: Time)
    returns (ghost s': State)
    requires repo.Valid() && Mirrors(s, repo) && t in s.tasks && s.tasks[t].stage.InFlight?
    requires s.tasks[t].row == due.row && s.tasks[t].attempts == due.attempts && s.tasks[t].target == due.target
    modifies repo`rows
    ensures repo.Valid() && Mirrors(s', repo) && s'.events == s.events
    ensures if Enabled(s, Fail(t, error, at)) then s' == Apply(s, Fail(t, error, at))
            else Enabled(s, Lose(t)) && s' == Apply(s, Lose(t))
  {
    FailStep(s, t, error, at);
    s' := if s.tasks[t].row in s.rows then Apply(s, Fail(t, error, at)) else Apply(s, Lose(t));
    repo.MarkFailure(due.row, error, at, due.attempts + 1 >= due.target.maxAttempts);
  }

  /** The operator's actions are steps exactly if they report the row as found and, for a retry, free. */
  method RetryIsStep(repo: PgRepo, ghost s: State, id: nat, now: Time) returns (outcome: RetryOutcome, ghost s': State)
    requires repo.Valid() && Mirrors(s, repo) && now == s.now
    modifies repo`rows
    ensures repo.Valid() && Mirrors(s', repo) && s'.events == s.events
    ensures outcome.Reset? <==> Enabled(s, Retry(id))
    ensures s' == if outcome.Reset? then Apply(s, Retry(id)) else s
  {
    outcome := repo.RetryDelivery(id, now);
    s' := if outcome.Reset? then Apply(s, Retry(id)) else s;
  }

  method CompleteIsStep(repo: PgRepo, ghost s: State, id: nat, now: Time) returns (found: bool, ghost s': State)
    requires repo.Valid() && Mirrors(s, repo) && now == s.now
    modifies repo`rows
    ensures repo.Valid() && Mirrors(s', repo) && s'.events == s.events
    ensures found <==> Enabled(s, Complete(id))
    ensures s' == if found then Apply(s, Complete(id)) else s
  {
    found := repo.CompleteDelivery(id, now);
    s' := if found then Apply(s, Complete(id)) else s;
  }

  method AbandonIsStep(repo: PgRepo, ghost s: State, id: nat) returns (found: bool, ghost s': State)
    requires repo.Valid() && Mirrors(s, repo)
    modifies repo`rows
    ensures repo.Valid() && Mirrors(s', repo) && s'.events == s.events
    ensures found <==> Enabled(s, Abandon(id))
    ensures s' == if found then Apply(s, Abandon(id)) else s
  {
    found := repo.AbandonDelivery(id);
    s' := if found then Apply(s, Abandon(id)) else s;
  }

  /** A scheduler that recovers its cursor from the repository starts where the machine's does. */
  method RecoverIsStep(repo: PgRepo, ghost s: State, ghost p: nat) returns (cursor: nat, ghost s': State)
    requires repo.Valid() && Mirrors(s, repo)
    ensures Mirrors(s', repo) && s'.events == s.events && Enabled(s, Recover(p)) && s' == Apply(s, Recover(p))
    ensures cursor == RecoveredCursor(repo.rows) && p in s'.scheds && s'.scheds[p] == StartAt(cursor)
  {
    cursor := repo.RecoverCursor();
    CursorIs(repo.rows, cursor);
    s' := SetSched(s, p, StartAt(cursor));
    assert s' == Apply(s, Recover(p));
  }
}
