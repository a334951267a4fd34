/** What holds in every state a run reaches, and in every state a well-timed run reaches. */
module Runs {
  import opened Basics
  import opened Table
  import opened Protocol
  import opened Leases
  import opened Attempts
  import opened Progress
  import opened Cursor

  /** Kept by every step. */
  ghost predicate StoreInv(s: State) {
    KeyInv(s) && Sound(s) && SchedInv(s) && RowInv(s) && BaseInv(s) && BirthInv(s)
  }

  /** Kept by every well-timed step. */
  ghost predicate Inv(s: State) {
    StoreInv(s) && LeaseInv(s) && CountInv(s) && TrackInv(s)
  }

  lemma InvInit(s: State)
    requires Init(s)
    ensures Inv(s)
  {
  }

  lemma StoreInvStep(s: State, step: Step)
    requires StoreInv(s) && Enabled(s, step)
    ensures StoreInv(Apply(s, step))
  {
    KeyInvStep(s, step);
    SoundStep(s, step);
    SchedInvStep(s, step);
    RowInvStep(s, step);
    BaseInvStep(s, step);
    BirthInvStep(s, step);
  }

  lemma {:induction false} StoreInvRun(s: State, steps: seq<Step>)
    requires StoreInv(s) && IsRun(s, steps)
    ensures StoreInv(Final(s, steps))
    decreases |steps|
  {
    if steps != [] {
      StoreInvStep(s, steps[0]);
      StoreInvRun(Apply(s, steps[0]), steps[1..]);
    }
  }

  lemma InvStep(s: State, step: Step)
    requires Inv(s) && Enabled(s, step) && WellTimed(s, step)
    ensures Inv(Apply(s, step))
  {
    StoreInvStep(s, step);
    LeaseInvStep(s, step);
    CountInvStep(s, step);
    TrackInvStep(s, step);
  }

  lemma {:induction false} InvRun(s: State, steps: seq<Step>)
    requires Inv(s) && ValidRun(s, steps)
    ensures Inv(Final(s, steps))
    decreases |steps|
  {
    if steps != [] {
      InvStep(s, steps[0]);
      InvRun(Apply(s, steps[0]), steps[1..]);
    }
  }

  /** The states of runs from an empty database. */
  ghost predicate Attainable(s: State) {
    exists s0, steps :: Init(s0) && IsRun(s0, steps) && Final(s0, steps) == s
  }

  /** The states of well-timed ones. */
  ghost predicate Reachable(s: State) {
    exists s0, steps :: Init(s0) && ValidRun(s0, steps) && Final(s0, steps) == s
  }

  lemma AttainableInv(s: State)
    requires Attainable(s)
    ensures StoreInv(s)
  {
    var s0, steps :| Init(s0) && IsRun(s0, steps) && Final(s0, steps) == s;
    InvInit(s0);
    StoreInvRun(s0, steps);
  }

  lemma ReachableInv(s: State)
    requires Reachable(s)
    ensures Inv(s) && Attainable(s)
  {
    var s0, steps :| Init(s0) && ValidRun(s0, steps) && Final(s0, steps) == s;
    InvInit(s0);
    InvRun(s0, steps);
  }

  lemma {:induction false} OneMoreStep(s: State, steps: seq<Step>, step: Step)
    requires IsRun(s, steps) && Enabled(Final(s, steps), step)
    ensures IsRun(s, steps + [step]) && Final(s, steps + [step]) == Apply(Final(s, steps), step)
    ensures Punctual(s, steps) && WellTimed(Final(s, steps), step) ==> Punctual(s, steps + [step])
    decreases |steps|
  {
    var longer := steps + [step];
    if steps == [] {
      assert longer[0] == step && longer[1..] == [];
    } else {
      OneMoreStep(Apply(s, steps[0]), steps[1..], step);
      assert longer[0] == steps[0] && longer[1..] == steps[1..] + [step];
    }
  }

  lemma ReachableStep(s: State, step: Step)
    requires Reachable(s) && Enabled(s, step) && WellTimed(s, step)
    ensures Reachable(Apply(s, step))
  {
    var s0, steps :| Init(s0) && ValidRun(s0, steps) && Final(s0, steps) == s;
    OneMoreStep(s0, steps, step);
  }

  lemma AttainableStep(s: State, step: Step)
    requires Attainable(s) && Enabled(s, step)
    ensures Attainable(Apply(s, step))
  {
    var s0, steps :| Init(s0) && IsRun(s0, steps) && Final(s0, steps) == s;
    OneMoreStep(s0, steps, step);
  }

  // ---- dispatch -----------------------------------------------------------------------------

  /** At most one holder is in flight per row, and while it is, the row (unless deleted) carries its
      lease and has not been dispatched. */
  lemma MutualExclusion(s: State, t: nat, u: nat)
    requires Reachable(s) && Flying(s, t)
    ensures Flying(s, u) && s.tasks[u].row == s.tasks[t].row ==> u == t
    ensures s.tasks[t].row in s.rows ==>
              && s.rows[s.tasks[t].row].lockedUntil == Some(s.tasks[t].stage.until)
              && s.rows[s.tasks[t].row].dispatchedAt.None?
              && !Lockable(s.rows[s.tasks[t].row], s.now)
  {
    ReachableInv(s);
    assert s.tasks[t].row in s.rows ==> HoldsLease(s, t);
  }

  /** Why leases must be respected: a write-back after the lease ran out strips the next holder of
      its own lease, and the row can be locked a third time while that holder is in flight. */
  lemma LateWrite(s: State, t: nat, u: nat, error: string, at: Time)
    requires LeaseInv(s) && t in s.tasks && s.tasks[t].stage.InFlight? && !Flying(s, t)
    requires Flying(s, u) && s.tasks[u].row == s.tasks[t].row && s.tasks[t].row in s.rows
    requires s.tasks[t].attempts + 1 < s.tasks[t].target.maxAttempts
    ensures Enabled(s, Fail(t, error, at))
    ensures var s' := Apply(s, Fail(t, error, at));
            Flying(s', u) && !LeaseInv(s') && Lockable(s'.rows[s.tasks[u].row], s'.now)
  {
    var s' := Apply(s, Fail(t, error, at));
    assert HoldsLease(s, u);
    assert Flying(s', u) && s'.tasks[u].row in s'.rows && !HoldsLease(s', u);
  }

  /** Without an operator retry, the successful locks of a row number at most
      max_completion_cycles * max_attempts, plus those never written back or fetched stale. */
  lemma BoundedLocks(s: State, id: nat)
    requires Reachable(s) && id in s.rows && id !in s.retried
    ensures |LocksOf(s.tasks, id)| <= MaxCycles(s, id) * MaxAttempts(s, id) + |Excused(s.tasks, id)|
  {
    ReachableInv(s);
    LockBudget(s, id);
  }

  /** The attempt count is the number of locks since the last reset; a lockable row has used at most
      max_attempts - 1 of them, plus those never written back or fetched stale. */
  lemma BoundedAttempts(s: State, id: nat)
    requires Reachable(s) && id in s.rows
    ensures s.rows[id].attempts == |EpochLocks(s.tasks, id, Epoch(s, id))|
    ensures Lockable(s.rows[id], s.now) ==>
              s.rows[id].attempts <= MaxAttempts(s, id) - 1 + |ExcusedEpoch(s.tasks, id, Epoch(s, id))|
  {
    ReachableInv(s);
    AttemptCeiling(s, id);
  }

  /** So an attempt fetched accurately, with no excused lock since the last reset, is never numbered
      above max_attempts. */
  lemma BoundedAttemptNumber(s: State, t: nat, start: Time)
    requires Reachable(s) && Enabled(s, Take(t, start)) && s.tasks[t].attempts == s.rows[s.tasks[t].row].attempts
    requires ExcusedEpoch(s.tasks, s.tasks[t].row, Epoch(s, s.tasks[t].row)) == {}
    ensures s.tasks[t].attempts + 1 <= s.tasks[t].target.maxAttempts
  {
    ReachableInv(s);
    AttemptNumber(s, t);
  }

  /** A live row inserted by `ensure_deliveries` is picked up again, unless it is dispatched and the sweep
      reads no timeout for it or does not run: exactly then it is not. */
  lemma NoStuckRows(s: State, id: nat)
    requires Reachable(s) && id in s.rows && id in s.ensured && Live(s.rows[id])
    ensures WillBePickedUp(s, id) <==> s.rows[id].dispatchedAt.None? || (HungOf(s, id).Some? && SweepRuns(s))
    ensures s.rows[id].dispatchedAt.Some? ==>
              s.rows[id].mode.External? && Spec(s, id).Some? && Spec(s, id).value.mode.External?
  {
    ReachableInv(s);
    if Spec(s, id).Some? { EnsuredMode(s, id); }
    assert Followed(s, id) && Tracked(s, id);
    PickedUpExactly(s, id);
  }

  /** In every run without an operator retry, a completed external row keeps its first `processed_at`, and
      every task that touches it from then on was fetched before. */
  lemma CompletedStays(s: State, steps: seq<Step>, id: nat)
    requires Attainable(s) && id in s.rows && s.rows[id].mode.External? && s.rows[id].processedAt.Some?
    requires IsRun(s, steps) && NoRetry(steps, id)
    ensures var s' := Final(s, steps);
            id in s'.rows ==> s'.rows[id].processedAt == s.rows[id].processedAt && TasksOn(s', id) <= TasksOn(s, id)
  {
    AttainableInv(s);
    assert id in s.ensured;
    if Spec(s, id).Some? { EnsuredMode(s, id); }
    CompletionPermanent(s, steps, id, s.rows[id].processedAt.value);
  }

  // ---- scheduling -------------------------------------------------------------------------------

  /** Restart safety. */
  lemma RecoveredCursorSafe(s: State, e: nat)
    requires Attainable(s) && !s.rescanned && e in s.events && e <= RecoveredCursor(s.rows)
    ensures ValidDone(s.rows, s.events[e])
  {
    AttainableInv(s);
    RestartSafe(s);
  }

  /** Commit point: exactly one row per distinct reported name, and no other row, for every surviving
      event between the cursor a scheduler started with and the one it holds now. */
  lemma CommitPoint(s: State, p: nat, e: nat, name: string)
    requires Attainable(s) && p in s.scheds && e in s.events && s.scheds[p].start < e <= s.scheds[p].cursor
    ensures HasRow(s.rows, e, name) <==> Reported(s.events[e], name)
    ensures forall i, j | i in s.rows && j in s.rows ::
              s.rows[i].event == s.rows[j].event == e && s.rows[i].name == s.rows[j].name == name ==> i == j
  {
    AttainableInv(s);
    assert SchedOk(s, s.scheds[p]) && FullyScheduled(s.rows, s.events[e]);
    if Reported(s.events[e], name) {
      var i, j :| 0 <= i < |s.events[e].plan| && 0 <= j < |s.events[e].plan[i]| && s.events[e].plan[i][j].name == name;
      assert HasRow(s.rows, e, s.events[e].plan[i][j].name);
    }
  }

  /** A row inserted as a dead letter - every row of an oversized event - stays one, and is never even
      fetched, until an operator retries it. */
  lemma DeadOnArrival(s: State, id: nat)
    requires Attainable(s) && id in s.rows && id !in s.ensured && id !in s.retried
    ensures s.rows[id].deadLetter && TasksOn(s, id) == {}
  {
    AttainableInv(s);
    assert Stillborn(s, id);
  }

  // ---- invalid callbacks ----------------------------------------------------------------------

  /** A run without a rescan in which no replica recovers its cursor while the newest row's event is half
      scheduled. */
  ghost predicate Careful(s: State, steps: seq<Step>)
    requires IsRun(s, steps)
    decreases |steps|
  {
    steps == [] ||
    (!steps[0].Rescan? && (steps[0].Recover? ==> NewestDone(s)) && Careful(Apply(s, steps[0]), steps[1..]))
  }

  /** In such runs every surviving event at or below a cursor has the rows of its invalid callbacks too. */
  lemma {:induction false} NothingUnrecorded(s: State, steps: seq<Step>)
    requires KeyInv(s) && SchedInv(s) && FullInv(s) && IsRun(s, steps) && Careful(s, steps)
    ensures FullInv(Final(s, steps))
    decreases |steps|
  {
    if steps != [] {
      KeyInvStep(s, steps[0]);
      SchedInvStep(s, steps[0]);
      FullInvStep(s, steps[0]);
      NothingUnrecorded(Apply(s, steps[0]), steps[1..]);
    }
  }
}
