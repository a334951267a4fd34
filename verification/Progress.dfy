/** No delivery row gets stuck, and what is completed or dead-lettered stays so. */
module Progress {
  import opened Basics
  import opened Table
  import opened Protocol
  import opened Leases

  // ---- no stuck rows -----------------------------------------------------------------

  /** The row's target has the row's mode. */
  ghost predicate Followed(s: State, id: nat)
    requires id in s.rows
  {
    Spec(s, id).Some? ==> Spec(s, id).value.mode == s.rows[id].mode
  }

  /** A dispatched row that is still live is external, and dispatch accepts its callback. */
  ghost predicate Tracked(s: State, id: nat)
    requires id in s.rows
  {
    Waiting(s.rows[id]) ==> s.rows[id].mode.External? && Spec(s, id).Some?
  }

  ghost predicate TrackInv(s: State) {
    forall id :: id in s.rows && Followed(s, id) ==> Tracked(s, id)
  }

  /** A live row will be picked up: either it is due once its delay and any lease have passed, or the
      sweep statement runs and finds it once its completion timeout has passed. */
  ghost predicate WillBePickedUp(s: State, id: nat)
    requires id in s.rows
  {
    var r := s.rows[id];
    || (forall t: Time :: r.availableAt <= t && (r.lockedUntil.Some? ==> r.lockedUntil.value < t) ==> Due(r, t))
    || (r.dispatchedAt.Some? && SweepRuns(s) && HungOf(s, id).Some? && SweptAfterTimeout(r, HungOf(s, id).value))
  }

  ghost predicate SweptAfterTimeout(r: Row, h: Hung)
    requires r.dispatchedAt.Some?
  {
    forall t: Time :: r.dispatchedAt.value + h.timeout as real < t ==> TimedOut(r, h, t)
  }

  /** Exactly which live rows are picked up: one that is not dispatched always; one that is dispatched
      if and only if it is external, the sweep reads a timeout for it, and no row breaks the sweep. */
  lemma PickedUpExactly(s: State, id: nat)
    requires id in s.rows && Live(s.rows[id])
    ensures WillBePickedUp(s, id) <==>
              s.rows[id].dispatchedAt.None? || (s.rows[id].mode.External? && HungOf(s, id).Some? && SweepRuns(s))
  {
    var r := s.rows[id];
    if r.dispatchedAt.Some? {
      NeverDue(r);
      if HungOf(s, id).Some? { SweptExactly(r, HungOf(s, id).value); }
    }
  }

  lemma NeverDue(r: Row)
    requires r.dispatchedAt.Some?
    ensures !(forall t: Time :: r.availableAt <= t && (r.lockedUntil.Some? ==> r.lockedUntil.value < t) ==> Due(r, t))
  {
    var expired := r.lockedUntil.None? || r.lockedUntil.value < r.availableAt;
    var later := if expired then r.availableAt else r.lockedUntil.value + 1.0;
    assert !Due(r, later);
  }

  lemma SweptExactly(r: Row, h: Hung)
    requires Waiting(r)
    ensures SweptAfterTimeout(r, h) <==> r.mode.External?
  {
    var after := r.dispatchedAt.value + h.timeout as real + 1.0;
    assert TimedOut(r, h, after) <==> r.mode.External?;
  }

  lemma TrackedKept(s: State, s': State, id: nat)
    requires TrackInv(s) && SameKeys(s.rows, s'.rows) && s'.events == s.events && id in s.rows && Followed(s', id)
    requires Waiting(s'.rows[id]) ==> Waiting(s.rows[id])
    ensures Tracked(s', id)
  {
    assert Followed(s, id) && Tracked(s, id);
  }

  /** Of the dispatch steps only a success makes a row wait. */
  lemma WaitingDispatch(s: State, step: Step, id: nat)
    requires Enabled(s, step) && DispatchStep(step) && id in s.rows && (step.Succeed? ==> s.tasks[step.task].row != id)
    requires step.Fail? && s.tasks[step.task].row == id ==> s.rows[id].dispatchedAt.None?
    ensures id in Apply(s, step).rows && (Waiting(Apply(s, step).rows[id]) ==> Waiting(s.rows[id]))
  {
  }

  lemma WaitingOperator(s: State, step: Step, id: nat)
    requires Enabled(s, step) && OperatorStep(step) && id in s.rows
    ensures id in Apply(s, step).rows && (Waiting(Apply(s, step).rows[id]) ==> Waiting(s.rows[id]))
  {
  }

  lemma TrackInvDispatch(s: State, step: Step)
    requires KeyInv(s) && LeaseInv(s) && TrackInv(s) && Enabled(s, step) && WellTimed(s, step) && DispatchStep(step)
    ensures TrackInv(Apply(s, step))
  {
    var s', row := Apply(s, step), s.tasks[step.task].row;
    SameIdsDispatch(s, step);
    forall id | id in s'.rows && Followed(s', id) ensures Tracked(s', id) {
      if id == row && step.Succeed? {
        SucceedTracked(s, step.task);
      } else {
        if id == row && step.Fail? { assert HoldsLease(s, step.task); }
        WaitingDispatch(s, step, id);
        TrackedKept(s, s', id);
      }
    }
  }

  lemma SucceedTracked(s: State, t: nat)
    requires Current(s) && Enabled(s, Succeed(t))
    ensures var s', id := Apply(s, Succeed(t)), s.tasks[t].row; id in s'.rows && (Followed(s', id) ==> Tracked(s', id))
  {
    assert Spec(s, s.tasks[t].row) == Some(s.tasks[t].target);
  }

  lemma TrackInvOperator(s: State, step: Step)
    requires TrackInv(s) && Enabled(s, step) && OperatorStep(step)
    ensures TrackInv(Apply(s, step))
  {
    var s' := Apply(s, step);
    SameIdsOperator(s, step);
    forall id | id in s'.rows && Followed(s', id) ensures Tracked(s', id) {
      WaitingOperator(s, step, id);
      TrackedKept(s, s', id);
    }
  }

  lemma TrackInvGrow(s: State, step: Step)
    requires KeyInv(s) && TrackInv(s) && Enabled(s, step) && GrowStep(step)
    ensures TrackInv(Apply(s, step))
  {
    var s' := Apply(s, step);
    if step.Insert? {
      var c := s.scheds[step.sched];
      InsertRowsSpec(s.rows, s.nextRow, c.batch[c.i].id, c.batch[c.i].plan[c.k], s.now);
    }
    forall id | id in s'.rows && Followed(s', id) ensures Tracked(s', id) {
      if id in s.rows {
        assert s'.rows[id] == s.rows[id] && Followed(s, id) && Tracked(s, id);
      }
    }
  }

  lemma TrackInvStep(s: State, step: Step)
    requires KeyInv(s) && LeaseInv(s) && TrackInv(s) && Enabled(s, step) && WellTimed(s, step)
    ensures TrackInv(Apply(s, step))
  {
    if DispatchStep(step) { TrackInvDispatch(s, step); }
    else if OperatorStep(step) { TrackInvOperator(s, step); }
    else if GrowStep(step) { TrackInvGrow(s, step); }
    else { IdleStepSpec(s, step); }
  }

  // ---- a stuck row stays stuck ----------------------------------------------------------------

  /** No step of the run is an operator's action on the row. */
  predicate Unattended(steps: seq<Step>, id: nat) {
    forall i :: 0 <= i < |steps| ==> !ActsOn(steps[i], id)
  }

  predicate ActsOn(step: Step, id: nat) {
    step == Retry(id) || step == Complete(id) || step == Abandon(id)
  }

  predicate NoSweep(steps: seq<Step>) {
    forall i :: 0 <= i < |steps| ==> !steps[i].Sweep?
  }

  /** Delivered, live, and out of reach of the sweep: the row is managed, or the sweep reads no timeout
      for it, or fails on it. */
  ghost predicate Stuck(s: State, id: nat) {
    && id in s.rows && Waiting(s.rows[id]) && Spec(s, id).Some?
    && (s.rows[id].mode.Managed? || HungOf(s, id).None? || Breaks(s, id))
  }

  lemma StuckDispatch(s: State, step: Step, id: nat)
    requires LeaseInv(s) && Stuck(s, id) && Enabled(s, step) && WellTimed(s, step) && DispatchStep(step)
    ensures id in Apply(s, step).rows && Apply(s, step).rows[id] == s.rows[id]
  {
    assert Flying(s, step.task) && s.tasks[step.task].row in s.rows ==> HoldsLease(s, step.task);
  }

  lemma StuckOperator(s: State, step: Step, id: nat)
    requires Stuck(s, id) && Enabled(s, step) && OperatorStep(step) && !ActsOn(step, id)
    ensures id in Apply(s, step).rows && Apply(s, step).rows[id] == s.rows[id]
  {
    if step.Sweep? { assert !Breaks(s, id) && !SweepHits(s, id, step.at); }
  }

  lemma StuckGrow(s: State, step: Step, id: nat)
    requires KeyInv(s) && Stuck(s, id) && Enabled(s, step) && GrowStep(step)
    ensures var s' := Apply(s, step);
            && id in s'.rows && s'.rows[id] == s.rows[id]
            && s.rows[id].event in s'.events && s'.events[s.rows[id].event] == s.events[s.rows[id].event]
  {
    if step.Insert? {
      var c := s.scheds[step.sched];
      InsertRowsSpec(s.rows, s.nextRow, c.batch[c.i].id, c.batch[c.i].plan[c.k], s.now);
    } else if step.Retain? {
      assert s.rows[id].event in step.doomed ==> NoLiveRow(s.rows, s.rows[id].event);
    }
  }

  lemma StuckRowKept(s: State, step: Step, id: nat)
    requires KeyInv(s) && LeaseInv(s) && Stuck(s, id) && Enabled(s, step) && WellTimed(s, step) && !ActsOn(step, id)
    ensures var s' := Apply(s, step);
            && id in s'.rows && s'.rows[id] == s.rows[id]
            && s.rows[id].event in s'.events && s'.events[s.rows[id].event] == s.events[s.rows[id].event]
  {
    if GrowStep(step) { StuckGrow(s, step, id); }
    else {
      SameIdsStep(s, step);
      if DispatchStep(step) { StuckDispatch(s, step, id); }
      else if OperatorStep(step) { StuckOperator(s, step, id); }
      else { IdleStepSpec(s, step); }
    }
  }

  lemma StuckKept(s: State, s': State, id: nat)
    requires Stuck(s, id) && id in s'.rows && s'.rows[id] == s.rows[id]
    requires s.rows[id].event in s'.events && s'.events[s.rows[id].event] == s.events[s.rows[id].event]
    ensures Stuck(s', id) && Spec(s', id) == Spec(s, id) && (Breaks(s, id) ==> Breaks(s', id))
  {
  }

  /** Neither dispatch, sweep nor retention touches a stuck row. */
  lemma StuckStep(s: State, step: Step, id: nat)
    requires KeyInv(s) && LeaseInv(s) && Stuck(s, id) && Enabled(s, step) && WellTimed(s, step) && !ActsOn(step, id)
    ensures var s' := Apply(s, step);
            && Stuck(s', id) && s'.rows[id] == s.rows[id] && Spec(s', id) == Spec(s, id)
            && (Breaks(s, id) ==> Breaks(s', id))
  {
    StuckRowKept(s, step, id);
    StuckKept(s, Apply(s, step), id);
  }

  lemma UnattendedTail(steps: seq<Step>, id: nat)
    requires steps != [] && Unattended(steps, id)
    ensures !ActsOn(steps[0], id) && Unattended(steps[1..], id)
  {
    forall i | 0 <= i < |steps[1..]| ensures !ActsOn(steps[1..][i], id) { assert steps[1..][i] == steps[i + 1]; }
  }

  /** A stuck row stays exactly as it is, neither due nor swept, in every well-timed run in which no
      operator acts on it. */
  lemma {:induction false} StuckForever(s: State, steps: seq<Step>, id: nat, t: Time)
    requires KeyInv(s) && LeaseInv(s) && Stuck(s, id) && ValidRun(s, steps) && Unattended(steps, id)
    ensures var s' := Final(s, steps);
            && Stuck(s', id) && s'.rows[id] == s.rows[id] && !WillBePickedUp(s', id)
            && !Due(s'.rows[id], t) && !(Enabled(s', Sweep(t)) && SweepHits(s', id, t))
    decreases |steps|
  {
    if steps == [] {
      PickedUpExactly(s, id);
    } else {
      UnattendedTail(steps, id);
      StuckStep(s, steps[0], id);
      KeyInvStep(s, steps[0]);
      LeaseInvStep(s, steps[0]);
      StuckForever(Apply(s, steps[0]), steps[1..], id, t);
    }
  }

  /** One row on which a cast fails: until an operator acts on it there is no sweep at all, and no
      delivered row of the whole table is picked up. */
  lemma {:induction false} SweepDisabled(s: State, steps: seq<Step>, id: nat)
    requires KeyInv(s) && LeaseInv(s) && Breaks(s, id) && Spec(s, id).Some?
    requires ValidRun(s, steps) && Unattended(steps, id)
    ensures NoSweep(steps)
    ensures var s' := Final(s, steps);
            && Breaks(s', id)
            && (forall at :: !Enabled(s', Sweep(at)))
            && (forall j :: j in s'.rows && Waiting(s'.rows[j]) ==> !WillBePickedUp(s', j))
    decreases |steps|
  {
    if steps == [] {
      forall j | j in s.rows && Waiting(s.rows[j]) ensures !WillBePickedUp(s, j) { PickedUpExactly(s, j); }
    } else {
      UnattendedTail(steps, id);
      StuckStep(s, steps[0], id);
      KeyInvStep(s, steps[0]);
      LeaseInvStep(s, steps[0]);
      SweepDisabled(Apply(s, steps[0]), steps[1..], id);
      assert steps == [steps[0]] + steps[1..];
    }
  }

  // ---- completion is permanent ----------------------------------------------------------

  function TasksOn(s: State, id: nat): set<nat> {
    set t | t in s.tasks && s.tasks[t].row == id
  }

  predicate NoRetry(steps: seq<Step>, id: nat) {
    forall i :: 0 <= i < |steps| ==> steps[i] != Retry(id)
  }

  /** The row is an external one completed at `at`, or retention has deleted it. */
  ghost predicate CompletedAt(s: State, id: nat, at: Time) {
    && id < s.nextRow
    && (id in s.rows ==>
          && s.rows[id].processedAt == Some(at) && s.rows[id].mode.External?
          && (Spec(s, id).Some? ==> Spec(s, id).value.mode.External?))
  }

  /** Steps that add or remove rows or events change no surviving row. */
  lemma GrowKeepsRow(s: State, step: Step, id: nat)
    requires KeyInv(s) && Enabled(s, step) && GrowStep(step) && id < s.nextRow
    ensures var s' := Apply(s, step);
            && id < s'.nextRow
            && (id in s'.rows ==> id in s.rows && s'.rows[id] == s.rows[id] && Spec(s', id) == Spec(s, id))
  {
    if step.Insert? {
      var c := s.scheds[step.sched];
      InsertRowsSpec(s.rows, s.nextRow, c.batch[c.i].id, c.batch[c.i].plan[c.k], s.now);
    }
  }

  lemma SameIdsKeepSpec(s: State, s': State, id: nat)
    requires SameIds(s, s') && id in s.rows
    ensures id in s'.rows && s'.rows[id].mode == s.rows[id].mode && Spec(s', id) == Spec(s, id)
  {
  }

  /** A row id that is gone stays gone; a surviving row keeps its event's targets. */
  lemma RowIdentity(s: State, step: Step, id: nat)
    requires KeyInv(s) && Enabled(s, step) && id < s.nextRow
    ensures var s' := Apply(s, step);
            && id < s'.nextRow
            && (id in s'.rows ==> id in s.rows && s'.rows[id].mode == s.rows[id].mode && Spec(s', id) == Spec(s, id))
            && (GrowStep(step) && id in s'.rows ==> s'.rows[id] == s.rows[id])
  {
    if GrowStep(step) { GrowKeepsRow(s, step, id); }
    else {
      SameIdsStep(s, step);
      if id in s.rows { SameIdsKeepSpec(s, Apply(s, step), id); }
    }
  }

  lemma CompletedDispatch(s: State, step: Step, id: nat, at: Time)
    requires id in s.rows && s.rows[id].processedAt == Some(at) && Enabled(s, step) && DispatchStep(step)
    requires s.tasks[step.task].row == id ==> s.tasks[step.task].target.mode.External?
    ensures id in Apply(s, step).rows && Apply(s, step).rows[id].processedAt == Some(at)
  {
  }

  lemma CompletedOperator(s: State, step: Step, id: nat, at: Time)
    requires id in s.rows && s.rows[id].processedAt == Some(at) && Enabled(s, step) && OperatorStep(step)
    requires step != Retry(id)
    ensures id in Apply(s, step).rows && Apply(s, step).rows[id].processedAt == Some(at)
  {
  }

  /** A completed row is not fetched. */
  lemma NoNewTask(s: State, step: Step, id: nat)
    requires Enabled(s, step) && id in s.rows && s.rows[id].processedAt.Some?
    ensures TasksOn(Apply(s, step), id) <= TasksOn(s, id)
  {
    if !step.Fetch? && DispatchStep(step) { SameIdsDispatch(s, step); }
  }

  lemma CompletedStep(s: State, step: Step, id: nat, at: Time)
    requires KeyInv(s) && CompletedAt(s, id, at) && Enabled(s, step) && step != Retry(id)
    ensures var s' := Apply(s, step); CompletedAt(s', id, at) && (id in s'.rows ==> TasksOn(s', id) <= TasksOn(s, id))
  {
    var s' := Apply(s, step);
    RowIdentity(s, step, id);
    if id in s'.rows {
      NoNewTask(s, step, id);
      if DispatchStep(step) {
        assert s.tasks[step.task].row == id ==> Spec(s, id) == Some(s.tasks[step.task].target);
        CompletedDispatch(s, step, id, at);
      } else if OperatorStep(step) {
        CompletedOperator(s, step, id, at);
      } else if !GrowStep(step) {
        IdleStepSpec(s, step);
      }
    }
  }

  /** Without an operator retry a completed external row keeps its first `processed_at`, and every
      task that touches it from then on was fetched before. */
  lemma {:induction false} CompletionPermanent(s: State, steps: seq<Step>, id: nat, at: Time)
    requires KeyInv(s) && CompletedAt(s, id, at) && IsRun(s, steps) && NoRetry(steps, id)
    ensures var s' := Final(s, steps);
            id in s'.rows ==> s'.rows[id].processedAt == Some(at) && TasksOn(s', id) <= TasksOn(s, id)
    decreases |steps|
  {
    if steps != [] {
      var s1 := Apply(s, steps[0]);
      KeyInvStep(s, steps[0]);
      CompletedStep(s, steps[0], id, at);
      assert NoRetry(steps[1..], id) by {
        forall i | 0 <= i < |steps[1..]| ensures steps[1..][i] != Retry(id) { assert steps[1..][i] == steps[i + 1]; }
      }
      CompletionPermanent(s1, steps[1..], id, at);
      if id !in s1.rows { GoneStaysGone(s1, steps[1..], id); }
    }
  }

  lemma {:induction false} GoneStaysGone(s: State, steps: seq<Step>, id: nat)
    requires KeyInv(s) && id < s.nextRow && id !in s.rows && IsRun(s, steps)
    ensures id !in Final(s, steps).rows
    decreases |steps|
  {
    if steps != [] {
      KeyInvStep(s, steps[0]);
      RowIdentity(s, steps[0], id);
      GoneStaysGone(Apply(s, steps[0]), steps[1..], id);
    }
  }

  // ---- dead letters are permanent ------------------------------------------------------------

  /** The row is dead-lettered with no holder in flight, or retention has deleted it. */
  ghost predicate Buried(s: State, id: nat) {
    && id < s.nextRow
    && (id in s.rows ==> s.rows[id].deadLetter && forall t :: Flying(s, t) ==> s.tasks[t].row != id)
  }

  lemma BuriedDispatch(s: State, step: Step, id: nat)
    requires Buried(s, id) && id in s.rows && Enabled(s, step) && WellTimed(s, step) && DispatchStep(step)
    ensures var s' := Apply(s, step);
            id in s'.rows && s'.rows[id].deadLetter && forall t :: Flying(s', t) ==> s'.tasks[t].row != id
  {
    var s' := Apply(s, step);
    assert s.tasks[step.task].row != id || step.Skip?;
    assert forall t :: Flying(s', t) && t != step.task ==> Flying(s, t);
  }

  lemma BuriedOperator(s: State, step: Step, id: nat)
    requires Buried(s, id) && id in s.rows && Enabled(s, step) && OperatorStep(step) && step != Retry(id)
    ensures var s' := Apply(s, step);
            id in s'.rows && s'.rows[id].deadLetter && forall t :: Flying(s', t) ==> s'.tasks[t].row != id
  {
    var s' := Apply(s, step);
    assert s'.tasks == s.tasks && s'.now == s.now;
    assert forall t :: Flying(s', t) ==> Flying(s, t);
  }

  lemma BuriedStep(s: State, step: Step, id: nat)
    requires KeyInv(s) && Buried(s, id) && Enabled(s, step) && WellTimed(s, step) && step != Retry(id)
    ensures Buried(Apply(s, step), id)
  {
    var s' := Apply(s, step);
    RowIdentity(s, step, id);
    if id in s'.rows {
      if DispatchStep(step) { BuriedDispatch(s, step, id); }
      else if OperatorStep(step) { BuriedOperator(s, step, id); }
      else {
        assert s'.rows[id] == s.rows[id];
        assert forall t :: Flying(s', t) ==> Flying(s, t);
      }
    }
  }

  /** In well-timed runs a dead letter without a holder in flight stays one until retry or deletion. */
  lemma {:induction false} DeadLetterPermanent(s: State, steps: seq<Step>, id: nat)
    requires KeyInv(s) && Buried(s, id) && ValidRun(s, steps) && NoRetry(steps, id)
    ensures Buried(Final(s, steps), id)
    decreases |steps|
  {
    if steps != [] {
      KeyInvStep(s, steps[0]);
      BuriedStep(s, steps[0], id);
      assert NoRetry(steps[1..], id) by {
        forall i | 0 <= i < |steps[1..]| ensures steps[1..][i] != Retry(id) { assert steps[1..][i] == steps[i + 1]; }
      }
      DeadLetterPermanent(Apply(s, steps[0]), steps[1..], id);
    }
  }

  /** With a holder in flight it does not: the holder's failure write decides alone, so an
      abandoned row comes back to life exactly when the holder still has attempts left. */
  lemma AbandonDuringFlight(s: State, t: nat, error: string, at: Time)
    requires Flying(s, t) && s.tasks[t].row in s.rows
    ensures var s1 := Apply(s, Abandon(s.tasks[t].row));
            && Enabled(s1, Fail(t, error, at)) && WellTimed(s1, Fail(t, error, at))
            && (!Apply(s1, Fail(t, error, at)).rows[s.tasks[t].row].deadLetter <==>
                s.tasks[t].attempts + 1 < s.tasks[t].target.maxAttempts)
  {
    var s1 := Apply(s, Abandon(s.tasks[t].row));
    assert Flying(s1, t);
  }
}
