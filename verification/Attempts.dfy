/** How often a row can be locked, and how high its attempt count can climb. */
module Attempts {
  import opened Basics
  import opened Table
  import opened Protocol
  import opened Leases

  // ---- the locks of a row ---------------------------------------------------------

  /** The task once locked row `id`. */
  predicate Locked(task: Task, id: nat) {
    task.row == id && (task.stage.InFlight? || task.stage.Written?)
  }

  /** Its result was written and the attempt count it was fetched with was accurate. */
  predicate Clean(task: Task) {
    task.stage.Written? && !task.stage.stale
  }

  predicate LockedIn(task: Task, id: nat, epoch: nat) {
    Locked(task, id) && task.stage.epoch == epoch
  }

  function LocksOf(tasks: map<nat, Task>, id: nat): set<nat> {
    set t | t in tasks && Locked(tasks[t], id)
  }

  function CleanLocks(tasks: map<nat, Task>, id: nat): set<nat> {
    set t | t in tasks && Locked(tasks[t], id) && Clean(tasks[t])
  }

  function EpochLocks(tasks: map<nat, Task>, id: nat, epoch: nat): set<nat> {
    set t | t in tasks && LockedIn(tasks[t], id, epoch)
  }

  function CleanEpoch(tasks: map<nat, Task>, id: nat, epoch: nat): set<nat> {
    set t | t in tasks && LockedIn(tasks[t], id, epoch) && Clean(tasks[t])
  }

  /** Locks whose result was never written, or whose fetched attempt count was stale. */
  function Excused(tasks: map<nat, Task>, id: nat): set<nat> {
    LocksOf(tasks, id) - CleanLocks(tasks, id)
  }

  function ExcusedEpoch(tasks: map<nat, Task>, id: nat, epoch: nat): set<nat> {
    EpochLocks(tasks, id, epoch) - CleanEpoch(tasks, id, epoch)
  }

  // ---- limits ------------------------------------------------------------------------

  function MaxAttempts(s: State, id: nat): nat {
    if Spec(s, id).Some? then Spec(s, id).value.maxAttempts else 1
  }

  /** Completion cycles the sweep grants; a row it never reads has one. */
  function MaxCycles(s: State, id: nat): nat {
    if HungOf(s, id).Some? then Max(1, HungOf(s, id).value.cycles) else 1
  }

  /** How many of its clean locks a row can have spent since its attempts were last reset. */
  function Cap(r: Row, max: nat, now: Time): int {
    if !Free(r, now) then Min(r.attempts - 1, max - 1)
    else if Lockable(r, now) then Min(r.attempts, max - 1)
    else max
  }

  // ---- the invariant ----------------------------------------------------------------------

  ghost predicate EpochsPast(s: State) {
    forall t :: t in s.tasks && (s.tasks[t].stage.InFlight? || s.tasks[t].stage.Written?) ==>
      s.tasks[t].stage.epoch <= Epoch(s, s.tasks[t].row)
  }

  /**
   `n` locks since the last reset, `clean` of them clean, `total` clean locks in all.
   Without an operator retry (`budgeted`) every spent completion cycle accounts for at most
   `max` clean locks.
   */
  ghost predicate Balanced(n: nat, clean: nat, total: nat, r: Row, max: nat, cycles: nat, now: Time, budgeted: bool) {
    && n == r.attempts
    && clean <= Cap(r, max, now)
    && (budgeted ==>
          && (r.cycles >= cycles ==> r.cycles == cycles && r.deadLetter && r.dispatchedAt.Some?)
          && total <= Min(r.cycles, cycles - 1) * max + clean)
  }

  ghost predicate RowCount(s: State, id: nat)
    requires id in s.rows
  {
    Balanced(|EpochLocks(s.tasks, id, Epoch(s, id))|, |CleanEpoch(s.tasks, id, Epoch(s, id))|,
             |CleanLocks(s.tasks, id)|,
             s.rows[id], MaxAttempts(s, id), MaxCycles(s, id), s.now, id !in s.retried)
  }

  ghost predicate CountInv(s: State) {
    EpochsPast(s) && forall id :: id in s.rows ==> RowCount(s, id)
  }

  // ---- set updates -----------------------------------------------------------------------

  lemma TaskUpdate(tasks: map<nat, Task>, t: nat, task: Task, id: nat, epoch: nat)
    ensures var tasks' := tasks[t := task];
            && EpochLocks(tasks', id, epoch) ==
                 (if LockedIn(task, id, epoch) then EpochLocks(tasks, id, epoch) + {t}
                  else EpochLocks(tasks, id, epoch) - {t})
            && CleanEpoch(tasks', id, epoch) ==
                 (if LockedIn(task, id, epoch) && Clean(task) then CleanEpoch(tasks, id, epoch) + {t}
                  else CleanEpoch(tasks, id, epoch) - {t})
            && CleanLocks(tasks', id) ==
                 (if Locked(task, id) && Clean(task) then CleanLocks(tasks, id) + {t} else CleanLocks(tasks, id) - {t})
  {
  }

  /** A new epoch starts without locks. */
  lemma EmptyEpoch(s: State, id: nat, epoch: nat)
    requires EpochsPast(s) && Epoch(s, id) < epoch
    ensures EpochLocks(s.tasks, id, epoch) == {} && CleanEpoch(s.tasks, id, epoch) == {}
  {
  }

  lemma Untouched(s: State, id: nat)
    requires forall t :: t in s.tasks ==> s.tasks[t].row != id
    ensures LocksOf(s.tasks, id) == {} && CleanLocks(s.tasks, id) == {}
    ensures forall e :: EpochLocks(s.tasks, id, e) == {} && CleanEpoch(s.tasks, id, e) == {}
  {
  }

  // ---- one row, one statement -------------------------------------------------------------

  lemma BalancedTick(n: nat, clean: nat, total: nat, r: Row, max: nat, cycles: nat, now: Time, budgeted: bool,
                     later: Time)
    requires Balanced(n, clean, total, r, max, cycles, now, budgeted) && now <= later
    ensures Balanced(n, clean, total, r, max, cycles, later, budgeted)
  {
  }

  lemma BalancedTake(n: nat, clean: nat, total: nat, r: Row, max: nat, cycles: nat, now: Time, budgeted: bool,
                     until: Time)
    requires Balanced(n, clean, total, r, max, cycles, now, budgeted) && Lockable(r, now)
    ensures Balanced(n + 1, clean, total, LockRow(r, until, now), max, cycles, now, budgeted)
  {
  }

  lemma BalancedSuccess(n: nat, clean: nat, total: nat, r: Row, max: nat, cycles: nat, now: Time, budgeted: bool,
                        mode: Mode, stale: bool)
    requires Balanced(n, clean, total, r, max, cycles, now, budgeted) && !Free(r, now) && r.dispatchedAt.None?
    requires max >= 1
    ensures var d := if stale then 0 else 1;
            Balanced(n, clean + d, total + d, DispatchRow(r, mode, now), max, cycles, now, budgeted)
  {
  }

  lemma BalancedFailure(n: nat, clean: nat, total: nat, r: Row, max: nat, cycles: nat, now: Time, budgeted: bool,
                        fetched: nat, stale: bool, error: string, at: Time)
    requires Balanced(n, clean, total, r, max, cycles, now, budgeted) && !Free(r, now) && r.dispatchedAt.None?
    requires max >= 1
    requires !stale ==> r.attempts == fetched + 1
    ensures var d := if stale then 0 else 1;
            Balanced(n, clean + d, total + d, FailRow(r, error, at, fetched + 1 >= max), max, cycles, now, budgeted)
  {
  }

  /** A sweep either exhausts the cycles or opens a new epoch, paid for by one cycle. */
  lemma BalancedSweep(n: nat, clean: nat, total: nat, r: Row, max: nat, now: Time, budgeted: bool, h: Hung, at: Time)
    requires Balanced(n, clean, total, r, max, Max(1, h.cycles), now, budgeted) && TimedOut(r, h, at) && max >= 1
    ensures r.cycles + 1 >= h.cycles ==>
              Balanced(n, clean, total, SweepRow(r, h, at), max, Max(1, h.cycles), now, budgeted)
    ensures r.cycles + 1 < h.cycles ==>
              Balanced(0, 0, total, SweepRow(r, h, at), max, h.cycles, now, budgeted)
  {
    assert (r.cycles + 1) * max == r.cycles * max + max;
  }

  lemma BalancedOperator(n: nat, clean: nat, total: nat, r: Row, max: nat, cycles: nat, now: Time, budgeted: bool)
    requires Balanced(n, clean, total, r, max, cycles, now, budgeted) && max >= 1
    ensures Balanced(n, clean, total, CompleteRow(r, now), max, cycles, now, budgeted)
    ensures Balanced(n, clean, total, AbandonRow(r), max, cycles, now, budgeted)
    ensures forall error :: Balanced(n, clean, total, PoisonRow(r, error), max, cycles, now, budgeted)
    ensures Balanced(0, 0, total, RetryRow(r, now), max, cycles, now, false)
  {
  }

  // ---- all rows, one step ----------------------------------------------------------------

  ghost predicate SameLimits(s: State, s': State, id: nat) {
    MaxAttempts(s', id) == MaxAttempts(s, id) && MaxCycles(s', id) == MaxCycles(s, id)
  }

  /** A row, its locks and its limits did not change. */
  lemma RowCountKept(s: State, s': State, id: nat)
    requires id in s.rows && id in s'.rows && s'.rows[id] == s.rows[id] && RowCount(s, id)
    requires s.now <= s'.now && Epoch(s', id) == Epoch(s, id) && SameLimits(s, s', id)
    requires EpochLocks(s'.tasks, id, Epoch(s, id)) == EpochLocks(s.tasks, id, Epoch(s, id))
    requires CleanEpoch(s'.tasks, id, Epoch(s, id)) == CleanEpoch(s.tasks, id, Epoch(s, id))
    requires CleanLocks(s'.tasks, id) == CleanLocks(s.tasks, id)
    requires id in s'.retried <==> id in s.retried
    ensures RowCount(s', id)
  {
    BalancedTick(|EpochLocks(s.tasks, id, Epoch(s, id))|, |CleanEpoch(s.tasks, id, Epoch(s, id))|,
                 |CleanLocks(s.tasks, id)|,
                 s.rows[id], MaxAttempts(s, id), MaxCycles(s, id), s.now, id !in s.retried, s'.now);
  }

  lemma LimitsKept(s: State, s': State, id: nat)
    requires SameKeys(s.rows, s'.rows) && s'.events == s.events
    ensures SameLimits(s, s', id)
  {
  }

  /** A statement on behalf of task `t` does not concern other rows. */
  lemma OtherRow(s: State, s': State, t: nat, id: nat)
    requires id in s.rows && id in s'.rows && s'.rows[id] == s.rows[id] && RowCount(s, id)
    requires s'.now == s.now && s'.epochs == s.epochs && s'.retried == s.retried && SameLimits(s, s', id)
    requires t in s'.tasks && s'.tasks == s.tasks[t := s'.tasks[t]] && !Locked(s'.tasks[t], id)
    requires t in s.tasks ==> !Locked(s.tasks[t], id)
    ensures RowCount(s', id)
  {
    TaskUpdate(s.tasks, t, s'.tasks[t], id, Epoch(s, id));
    RowCountKept(s, s', id);
  }

  /** A lock adds one to the locks of its epoch and none to the clean ones. */
  lemma TakenLocks(tasks: map<nat, Task>, t: nat, task: Task, id: nat, epoch: nat)
    requires t in tasks && tasks[t].stage.Fetched? && task.row == id && task.stage.InFlight?
    requires task.stage.epoch == epoch
    ensures |EpochLocks(tasks[t := task], id, epoch)| == |EpochLocks(tasks, id, epoch)| + 1
    ensures |CleanEpoch(tasks[t := task], id, epoch)| == |CleanEpoch(tasks, id, epoch)|
    ensures |CleanLocks(tasks[t := task], id)| == |CleanLocks(tasks, id)|
  {
    TaskUpdate(tasks, t, task, id, epoch);
    assert t !in EpochLocks(tasks, id, epoch) && t !in CleanEpoch(tasks, id, epoch) && t !in CleanLocks(tasks, id);
    assert CleanEpoch(tasks, id, epoch) - {t} == CleanEpoch(tasks, id, epoch) &&
        CleanLocks(tasks, id) - {t} == CleanLocks(tasks, id);
  }

  lemma RowTake(s: State, t: nat, until: Time)
    requires t in s.tasks && s.tasks[t].stage.Fetched? && CanLock(s, t) && RowCount(s, s.tasks[t].row)
    ensures RowCount(DoTake(s, t, until), s.tasks[t].row)
  {
    var s', id := DoTake(s, t, until), s.tasks[t].row;
    TakenLocks(s.tasks, t, s'.tasks[t], id, Epoch(s, id));
    BalancedTake(|EpochLocks(s.tasks, id, Epoch(s, id))|, |CleanEpoch(s.tasks, id, Epoch(s, id))|,
                 |CleanLocks(s.tasks, id)|,
                 s.rows[id], MaxAttempts(s, id), MaxCycles(s, id), s.now, id !in s.retried, until);
    RowKeysKept(s.rows, id, s'.rows[id]);
    LimitsKept(s, s', id);
  }

  lemma CountTake(s: State, t: nat, until: Time)
    requires CountInv(s) && t in s.tasks && s.tasks[t].stage.Fetched? && CanLock(s, t)
    ensures CountInv(DoTake(s, t, until))
  {
    var s', row := DoTake(s, t, until), s.tasks[t].row;
    RowKeysKept(s.rows, row, s'.rows[row]);
    forall id | id in s'.rows ensures RowCount(s', id) {
      LimitsKept(s, s', id);
      if id == row { RowTake(s, t, until); } else { OtherRow(s, s', t, id); }
    }
  }

  ghost predicate WritesBack(s: State, t: nat) {
    && Flying(s, t) && s.tasks[t].row in s.rows && HoldsLease(s, t)
    && Spec(s, s.tasks[t].row) == Some(s.tasks[t].target) && s.tasks[t].target.maxAttempts >= 1
  }

  /** The write-back turns the lock clean unless its fetch was stale. */
  lemma WrittenLocks(s: State, t: nat, r: Row)
    requires WritesBack(s, t)
    ensures var s', id, d := DoWrite(s, t, r), s.tasks[t].row, if s.tasks[t].stage.stale then 0 else 1;
            && Epoch(s', id) == Epoch(s, id)
            && EpochLocks(s'.tasks, id, Epoch(s, id)) == EpochLocks(s.tasks, id, Epoch(s, id))
            && |CleanEpoch(s'.tasks, id, Epoch(s, id))| == |CleanEpoch(s.tasks, id, Epoch(s, id))| + d
            && |CleanLocks(s'.tasks, id)| == |CleanLocks(s.tasks, id)| + d
  {
    var s', id := DoWrite(s, t, r), s.tasks[t].row;
    TaskUpdate(s.tasks, t, s'.tasks[t], id, Epoch(s, id));
    assert t in EpochLocks(s.tasks, id, Epoch(s, id));
  }

  lemma RowSucceed(s: State, t: nat)
    requires WritesBack(s, t) && RowCount(s, s.tasks[t].row)
    ensures RowCount(DoWrite(s, t, SuccessRow(s, t)), s.tasks[t].row)
  {
    var s', id := DoWrite(s, t, SuccessRow(s, t)), s.tasks[t].row;
    WrittenLocks(s, t, SuccessRow(s, t));
    BalancedSuccess(|EpochLocks(s.tasks, id, Epoch(s, id))|, |CleanEpoch(s.tasks, id, Epoch(s, id))|,
                    |CleanLocks(s.tasks, id)|,
                    s.rows[id], MaxAttempts(s, id), MaxCycles(s, id), s.now, id !in s.retried,
                    s.tasks[t].target.mode, s.tasks[t].stage.stale);
    RowKeysKept(s.rows, id, s'.rows[id]);
    LimitsKept(s, s', id);
  }

  lemma RowFail(s: State, t: nat, error: string, at: Time)
    requires WritesBack(s, t) && RowCount(s, s.tasks[t].row)
    ensures RowCount(DoWrite(s, t, FailureRow(s, t, error, at)), s.tasks[t].row)
  {
    var s', id := DoWrite(s, t, FailureRow(s, t, error, at)), s.tasks[t].row;
    WrittenLocks(s, t, FailureRow(s, t, error, at));
    BalancedFailure(|EpochLocks(s.tasks, id, Epoch(s, id))|, |CleanEpoch(s.tasks, id, Epoch(s, id))|,
                    |CleanLocks(s.tasks, id)|,
                    s.rows[id], MaxAttempts(s, id), MaxCycles(s, id), s.now, id !in s.retried,
                    s.tasks[t].attempts, s.tasks[t].stage.stale, error, at);
    RowKeysKept(s.rows, id, s'.rows[id]);
    LimitsKept(s, s', id);
  }

  lemma CountWrite(s: State, t: nat, r: Row)
    requires CountInv(s) && WritesBack(s, t) && RowCount(DoWrite(s, t, r), s.tasks[t].row)
    requires r.event == s.rows[s.tasks[t].row].event && r.name == s.rows[s.tasks[t].row].name
    requires r.mode == s.rows[s.tasks[t].row].mode
    ensures CountInv(DoWrite(s, t, r))
  {
    var s', row := DoWrite(s, t, r), s.tasks[t].row;
    RowKeysKept(s.rows, row, r);
    forall id | id in s'.rows ensures RowCount(s', id) {
      LimitsKept(s, s', id);
      if id != row { OtherRow(s, s', t, id); }
    }
  }

  /** Fetches, refused locks and lost write-backs count for no existing row. */
  lemma CountSetTask(s: State, t: nat, task: Task)
    requires CountInv(s)
    requires || ((task.stage.Fetched? || task.stage.Skipped?) && (t in s.tasks ==> s.tasks[t].stage.Fetched?))
             || (t in s.tasks && task.row !in s.rows && s.tasks[t].stage.InFlight? && task == Finished(s.tasks[t]))
    ensures CountInv(SetTask(s, t, task))
  {
    var s' := SetTask(s, t, task);
    forall id | id in s'.rows ensures RowCount(s', id) {
      OtherRow(s, s', t, id);
    }
  }

  lemma RowSetRow(s: State, id: nat, r: Row)
    requires id in s.rows && RowCount(s, id) && MaxAttempts(s, id) >= 1
    requires || r == CompleteRow(s.rows[id], s.now) || r == AbandonRow(s.rows[id])
             || (r.lastError.Some? && r == PoisonRow(s.rows[id], r.lastError.value))
    ensures RowCount(SetRow(s, id, r), id)
  {
    RowKeysKept(s.rows, id, r);
    LimitsKept(s, SetRow(s, id, r), id);
    BalancedOperator(|EpochLocks(s.tasks, id, Epoch(s, id))|, |CleanEpoch(s.tasks, id, Epoch(s, id))|,
                     |CleanLocks(s.tasks, id)|,
                     s.rows[id], MaxAttempts(s, id), MaxCycles(s, id), s.now, id !in s.retried);
  }

  lemma RowRetry(s: State, id: nat)
    requires id in s.rows && RowCount(s, id) && MaxAttempts(s, id) >= 1 && EpochsPast(s)
    ensures RowCount(DoRetry(s, id), id)
  {
    var s' := DoRetry(s, id);
    RowKeysKept(s.rows, id, s'.rows[id]);
    LimitsKept(s, s', id);
    EmptyEpoch(s, id, Epoch(s, id) + 1);
    BalancedOperator(|EpochLocks(s.tasks, id, Epoch(s, id))|, |CleanEpoch(s.tasks, id, Epoch(s, id))|,
                     |CleanLocks(s.tasks, id)|,
                     s.rows[id], MaxAttempts(s, id), MaxCycles(s, id), s.now, id !in s.retried);
  }

  /** A statement that changes one row and no task. */
  lemma CountOneRow(s: State, s': State, id: nat)
    requires CountInv(s) && id in s.rows && id in s'.rows && RowCount(s', id)
    requires s'.rows == s.rows[id := s'.rows[id]] && SameKeys(s.rows, s'.rows) && s'.events == s.events
    requires s'.now == s.now && s'.tasks == s.tasks && Epoch(s, id) <= Epoch(s', id)
    requires forall j :: j != id ==> Epoch(s', j) == Epoch(s, j) && (j in s'.retried <==> j in s.retried)
    ensures CountInv(s')
  {
    forall j | j in s'.rows ensures RowCount(s', j) {
      if j != id { LimitsKept(s, s', j); RowCountKept(s, s', j); }
    }
  }

  lemma PositiveAttempts(s: State, id: nat)
    requires Sound(s)
    ensures MaxAttempts(s, id) >= 1
  {
  }

  lemma CountRetry(s: State, id: nat)
    requires CountInv(s) && Sound(s) && id in s.rows
    ensures CountInv(DoRetry(s, id))
  {
    PositiveAttempts(s, id);
    RowRetry(s, id);
    RowKeysKept(s.rows, id, RetryRow(s.rows[id], s.now));
    CountOneRow(s, DoRetry(s, id), id);
  }

  lemma CountSetRow(s: State, id: nat, r: Row)
    requires CountInv(s) && Sound(s) && id in s.rows
    requires || r == CompleteRow(s.rows[id], s.now) || r == AbandonRow(s.rows[id])
             || (r.lastError.Some? && r == PoisonRow(s.rows[id], r.lastError.value))
    ensures CountInv(SetRow(s, id, r))
  {
    PositiveAttempts(s, id);
    RowSetRow(s, id, r);
    RowKeysKept(s.rows, id, r);
    CountOneRow(s, SetRow(s, id, r), id);
  }

  lemma SweepKeysKept(s: State, at: Time)
    ensures SameKeys(s.rows, DoSweep(s, at).rows)
  {
  }

  /** The sweep's effect on one row. */
  lemma SweptRow(s: State, at: Time, id: nat)
    requires id in s.rows
    ensures var s' := DoSweep(s, at);
            && id in s'.rows
            && s'.rows[id] == (if SweepHits(s, id, at) then SweepRow(s.rows[id], HungOf(s, id).value, at)
                               else s.rows[id])
            && Epoch(s', id) == (if SweepResets(s, id, at) then Epoch(s, id) + 1 else Epoch(s, id))
            && s'.tasks == s.tasks && s'.now == s.now && s'.retried == s.retried && s'.events == s.events
  {
  }

  lemma RowSweep(s: State, s': State, at: Time, id: nat)
    requires id in s.rows && RowCount(s, id) && MaxAttempts(s, id) >= 1 && EpochsPast(s) && SweepHits(s, id, at)
    requires id in s'.rows && s'.rows[id] == SweepRow(s.rows[id], HungOf(s, id).value, at) && SameLimits(s, s', id)
    requires Epoch(s', id) == (if SweepResets(s, id, at) then Epoch(s, id) + 1 else Epoch(s, id))
    requires s'.tasks == s.tasks && s'.now == s.now && s'.retried == s.retried
    ensures RowCount(s', id)
  {
    BalancedSweep(|EpochLocks(s.tasks, id, Epoch(s, id))|, |CleanEpoch(s.tasks, id, Epoch(s, id))|,
                  |CleanLocks(s.tasks, id)|,
                  s.rows[id], MaxAttempts(s, id), s.now, id !in s.retried, HungOf(s, id).value, at);
    if SweepResets(s, id, at) { EmptyEpoch(s, id, Epoch(s, id) + 1); }
  }

  lemma CountSweepRow(s: State, at: Time, id: nat)
    requires CountInv(s) && Sound(s) && id in s.rows
    ensures id in DoSweep(s, at).rows && RowCount(DoSweep(s, at), id)
  {
    var s' := DoSweep(s, at);
    SweptRow(s, at, id);
    SweepKeysKept(s, at);
    LimitsKept(s, s', id);
    PositiveAttempts(s, id);
    if SweepHits(s, id, at) { RowSweep(s, s', at, id); } else { RowCountKept(s, s', id); }
  }

  lemma CountSweep(s: State, at: Time)
    requires CountInv(s) && Sound(s)
    ensures CountInv(DoSweep(s, at))
  {
    var s' := DoSweep(s, at);
    forall id | id in s'.rows ensures RowCount(s', id) { CountSweepRow(s, at, id); }
    assert forall id :: Epoch(s, id) <= Epoch(s', id);
  }

  lemma CountOld(s: State, s': State, id: nat)
    requires id in s.rows && id in s'.rows && s'.rows[id] == s.rows[id] && RowCount(s, id)
    requires s.rows[id].event in s.events && s.rows[id].event in s'.events
    requires s'.events[s.rows[id].event] == s.events[s.rows[id].event]
    requires s'.now == s.now && s'.tasks == s.tasks && s'.epochs == s.epochs && s'.retried == s.retried
    ensures RowCount(s', id)
  {
    RowCountKept(s, s', id);
  }

  lemma CountNew(s: State, id: nat)
    requires id in s.rows && NewBorn(s.rows[id]) && Sound(s) && forall t :: t in s.tasks ==> s.tasks[t].row != id
    ensures RowCount(s, id)
  {
    Untouched(s, id);
    PositiveAttempts(s, id);
  }

  /** New rows start without locks; publishing and retention change no surviving row. */
  lemma CountGrow(s: State, s': State)
    requires KeyInv(s) && CountInv(s) && Sound(s') && KeyInv(s')
    requires s'.now == s.now && s'.tasks == s.tasks && s'.epochs == s.epochs && s'.retried == s.retried
    requires forall id :: id in s'.rows ==>
               || (id in s.rows && s'.rows[id] == s.rows[id] &&
                   s'.events[s.rows[id].event] == s.events[s.rows[id].event])
               || (s.nextRow <= id && NewBorn(s'.rows[id]))
    ensures CountInv(s')
  {
    forall id | id in s'.rows ensures RowCount(s', id) {
      if id in s.rows { CountOld(s, s', id); } else { CountNew(s', id); }
    }
  }

  ghost predicate NewBorn(r: Row) {
    r.attempts == 0 && r.cycles == 0 && r.lockedUntil.None? && r.dispatchedAt.None?
  }

  lemma CountInsert(s: State, p: nat)
    requires KeyInv(s) && CountInv(s) && Enabled(s, Insert(p)) && KeyInv(DoInsert(s, p)) && Sound(DoInsert(s, p))
    ensures CountInv(DoInsert(s, p))
  {
    var c := s.scheds[p];
    var s' := DoInsert(s, p);
    InsertRowsSpec(s.rows, s.nextRow, c.batch[c.i].id, c.batch[c.i].plan[c.k], s.now);
    forall id | id in s'.rows && id !in s.rows ensures s.nextRow <= id && NewBorn(s'.rows[id]) {
      assert InsertedFrom(s'.rows[id], c.batch[c.i].id, c.batch[c.i].plan[c.k], s.now);
    }
    CountGrow(s, s');
  }

  lemma CountRetain(s: State, doomed: set<nat>)
    requires KeyInv(s) && CountInv(s) && KeyInv(DoRetain(s, doomed)) && Sound(DoRetain(s, doomed))
    ensures CountInv(DoRetain(s, doomed))
  {
    CountGrow(s, DoRetain(s, doomed));
  }

  lemma CountPublish(s: State, s': State, e: Event)
    requires KeyInv(s) && CountInv(s) && KeyInv(s') && Sound(s') && s.nextEvent <= e.id
    requires s' == s.(events := s.events[e.id := e], nextEvent := e.id + 1)
    ensures CountInv(s')
  {
    CountGrow(s, s');
  }

  lemma CountInvGrow(s: State, step: Step)
    requires KeyInv(s) && Sound(s) && CountInv(s) && Enabled(s, step) && GrowStep(step)
    ensures CountInv(Apply(s, step))
  {
    KeyInvStep(s, step);
    SoundStep(s, step);
    if step.Fetch? { CountSetTask(s, step.task, Apply(s, step).tasks[step.task]); }
    else if step.Insert? { CountInsert(s, step.sched); }
    else if step.Retain? { CountRetain(s, step.doomed); }
    else { CountPublish(s, Apply(s, step), step.event); }
  }

  lemma CountInvOperator(s: State, step: Step)
    requires Sound(s) && CountInv(s) && Enabled(s, step) && OperatorStep(step)
    ensures CountInv(Apply(s, step))
  {
    if step.Sweep? { CountSweep(s, step.at); }
    else if step.Retry? { CountRetry(s, step.row); }
    else { CountSetRow(s, step.row, Apply(s, step).rows[step.row]); }
  }

  lemma CountInvDispatch(s: State, step: Step)
    requires CountInv(s) && Enabled(s, step) && DispatchStep(step)
    requires (step.Succeed? || step.Fail?) ==> WritesBack(s, step.task)
    ensures CountInv(Apply(s, step))
  {
    var s', t := Apply(s, step), step.task;
    if step.Take? {
      var until := step.start + s.tasks[t].target.timeout as real + s.lockBuffer;
      assert s' == DoTake(s, t, until);
      CountTake(s, t, until);
    } else if step.Succeed? || step.Fail? { CountInvWrite(s, step); }
    else {
      assert s' == SetTask(s, t, s'.tasks[t]);
      CountSetTask(s, t, s'.tasks[t]);
    }
  }

  lemma WriterKnown(s: State, t: nat)
    requires KeyInv(s) && LeaseInv(s) && Sound(s) && Flying(s, t) && s.tasks[t].row in s.rows
    ensures WritesBack(s, t)
  {
    PositiveAttempts(s, s.tasks[t].row);
  }

  lemma CountInvWrite(s: State, step: Step)
    requires CountInv(s) && Enabled(s, step) && (step.Succeed? || step.Fail?) && WritesBack(s, step.task)
    ensures CountInv(Apply(s, step))
  {
    if step.Succeed? { RowSucceed(s, step.task); CountWrite(s, step.task, SuccessRow(s, step.task)); }
    else {
      RowFail(s, step.task, step.error, step.availableAt);
      CountWrite(s, step.task, FailureRow(s, step.task, step.error, step.availableAt));
    }
  }

  lemma CountIdle(s: State, s': State)
    requires CountInv(s) && s.now <= s'.now && s' == s.(now := s'.now, scheds := s'.scheds, rescanned := s'.rescanned)
    ensures CountInv(s')
  {
    forall id | id in s'.rows ensures RowCount(s', id) { RowCountKept(s, s', id); }
  }

  lemma CountInvStep(s: State, step: Step)
    requires KeyInv(s) && LeaseInv(s) && Sound(s) && CountInv(s) && Enabled(s, step) && WellTimed(s, step)
    ensures CountInv(Apply(s, step))
  {
    if step.Succeed? || step.Fail? { WriterKnown(s, step.task); }
    if DispatchStep(step) { CountInvDispatch(s, step); }
    else if OperatorStep(step) { CountInvOperator(s, step); }
    else if GrowStep(step) { CountInvGrow(s, step); }
    else { IdleStepSpec(s, step); CountIdle(s, Apply(s, step)); }
  }

  // ---- what the counts mean --------------------------------------------------------------

  /** Without an operator retry a row is locked at most `MaxCycles * MaxAttempts` times, not counting
      locks whose result was never written or whose fetched attempt count was stale. */
  lemma LockBudget(s: State, id: nat)
    requires CountInv(s) && Sound(s) && id in s.rows && id !in s.retried
    ensures |LocksOf(s.tasks, id)| <= MaxCycles(s, id) * MaxAttempts(s, id) + |Excused(s.tasks, id)|
  {
    var c, max := MaxCycles(s, id), MaxAttempts(s, id);
    CleanOrExcused(s.tasks, id);
    PositiveAttempts(s, id);
    assert RowCount(s, id);
    BudgetSum(Min(s.rows[id].cycles, c - 1), c, max, |CleanEpoch(s.tasks, id, Epoch(s, id))|);
  }

  lemma CleanOrExcused(tasks: map<nat, Task>, id: nat)
    ensures |LocksOf(tasks, id)| == |CleanLocks(tasks, id)| + |Excused(tasks, id)|
  {
    assert LocksOf(tasks, id) == CleanLocks(tasks, id) + Excused(tasks, id);
  }

  lemma BudgetSum(k: nat, c: nat, max: nat, clean: nat)
    requires k <= c - 1 && clean <= max
    ensures k * max + clean <= c * max
  {
    assert (c - 1 - k) * max >= 0;
    assert k * max + (c - 1 - k) * max + max == c * max;
  }

  /** A row that can be locked has spent at most `MaxAttempts - 1` attempts since its last reset,
      not counting excused ones; its attempt count is exact. */
  lemma AttemptCeiling(s: State, id: nat)
    requires CountInv(s) && id in s.rows
    ensures s.rows[id].attempts == |EpochLocks(s.tasks, id, Epoch(s, id))|
    ensures Lockable(s.rows[id], s.now) ==>
              s.rows[id].attempts <= MaxAttempts(s, id) - 1 + |ExcusedEpoch(s.tasks, id, Epoch(s, id))|
  {
    assert RowCount(s, id);
    assert EpochLocks(s.tasks, id, Epoch(s, id)) ==
        CleanEpoch(s.tasks, id, Epoch(s, id)) + ExcusedEpoch(s.tasks, id, Epoch(s, id));
  }

  /** Hence an accurate fetch of a row without excused locks never numbers an attempt above the limit. */
  lemma AttemptNumber(s: State, t: nat)
    requires KeyInv(s) && CountInv(s) && t in s.tasks && s.tasks[t].stage.Fetched? && CanLock(s, t)
    requires s.tasks[t].attempts == s.rows[s.tasks[t].row].attempts
    requires ExcusedEpoch(s.tasks, s.tasks[t].row, Epoch(s, s.tasks[t].row)) == {}
    ensures 1 <= s.tasks[t].attempts + 1 <= s.tasks[t].target.maxAttempts
  {
    AttemptCeiling(s, s.tasks[t].row);
  }
}
