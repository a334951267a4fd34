/** The bound on locks is attained. */
module Budget {
  import opened Basics
  import opened Table
  import opened Protocol
  import opened Attempts
  import opened Runs
  import opened Witnesses

  /** A database with one event, of which at most this row has been touched, every lock of it clean. */
  ghost predicate Solo(s: State, e: Event, id: nat) {
    && Reachable(s) && s.events == map[e.id := e] && s.lockBuffer >= 0.0
    && id in s.rows && s.rows[id].event == e.id && s.rows[id].name in e.targets && id !in s.retried
    && Excused(s.tasks, id) == {}
    && forall j :: j in s.rows && j != id ==> s.rows[j].dispatchedAt.None?
  }

  function TargetOf(s: State, e: Event, id: nat): Target
    requires id in s.rows && s.rows[id].name in e.targets
  {
    e.targets[s.rows[id].name]
  }

  lemma LocksAdd(tasks: map<nat, Task>, u: nat, task: Task, id: nat)
    requires u !in tasks && Locked(task, id) && Clean(task) && Excused(tasks, id) == {}
    ensures |LocksOf(tasks[u := task], id)| == |LocksOf(tasks, id)| + 1 && Excused(tasks[u := task], id) == {}
  {
    assert LocksOf(tasks[u := task], id) == LocksOf(tasks, id) + {u};
    assert CleanLocks(tasks[u := task], id) == CleanLocks(tasks, id) + {u};
  }

  /** The row keeps its identity and its cycles, and has been locked `n` times more. */
  ghost predicate Follows(s: State, s': State, e: Event, id: nat, n: nat) {
    && Solo(s, e, id) && Solo(s', e, id)
    && s'.rows[id].name == s.rows[id].name && s'.rows[id].mode == s.rows[id].mode
    && |LocksOf(s'.tasks, id)| == |LocksOf(s.tasks, id)| + n
  }

  lemma Fails(s: State, e: Event, id: nat) returns (s': State)
    requires Solo(s, e, id) && Due(s.rows[id], s.now) && s.rows[id].attempts + 1 < TargetOf(s, e, id).maxAttempts
    ensures Follows(s, s', e, id, 1) && Due(s'.rows[id], s'.now)
    ensures s'.rows[id].attempts == s.rows[id].attempts + 1 && s'.rows[id].cycles == s.rows[id].cycles
  {
    s' := Refused(s, id);
    LocksAdd(s.tasks, Unused(s.tasks), DoneTask(s, id), id);
  }

  lemma {:induction false} FailsTimes(s: State, e: Event, id: nat, n: nat) returns (s': State)
    requires Solo(s, e, id) && Due(s.rows[id], s.now) && s.rows[id].attempts + n < TargetOf(s, e, id).maxAttempts
    ensures Follows(s, s', e, id, n) && Due(s'.rows[id], s'.now)
    ensures s'.rows[id].attempts == s.rows[id].attempts + n && s'.rows[id].cycles == s.rows[id].cycles
    decreases n
  {
    if n == 0 {
      s' := s;
    } else {
      var s1 := Fails(s, e, id);
      s' := FailsTimes(s1, e, id, n - 1);
    }
  }

  lemma Succeeds(s: State, e: Event, id: nat) returns (s': State)
    requires Solo(s, e, id) && Due(s.rows[id], s.now)
    requires s.rows[id].mode.External? && TargetOf(s, e, id).mode.External?
    ensures Follows(s, s', e, id, 1) && Waiting(s'.rows[id]) && s'.rows[id].cycles == s.rows[id].cycles
  {
    s' := Delivered(s, id);
    LocksAdd(s.tasks, Unused(s.tasks), DoneTask(s, id), id);
  }

  /** All attempts of one completion cycle. */
  lemma WholeCycle(s: State, e: Event, id: nat) returns (s': State)
    requires Solo(s, e, id) && Due(s.rows[id], s.now) && s.rows[id].attempts == 0 && TargetOf(s, e, id).maxAttempts >= 1
    requires s.rows[id].mode.External? && TargetOf(s, e, id).mode.External?
    ensures Follows(s, s', e, id, TargetOf(s, e, id).maxAttempts)
    ensures Waiting(s'.rows[id]) && s'.rows[id].cycles == s.rows[id].cycles
  {
    var s1 := FailsTimes(s, e, id, TargetOf(s, e, id).maxAttempts - 1);
    s' := Succeeds(s1, e, id);
  }

  /** A sweep changes only rows that wait. */
  lemma SweptAlone(s: State, id: nat, h: Hung, at: Time)
    requires id in s.rows && HungOf(s, id) == Some(h) && TimedOut(s.rows[id], h, at)
    ensures var s' := DoSweep(s, at);
            && id in s'.rows && s'.rows[id] == SweepRow(s.rows[id], h, at) && s'.rows.Keys == s.rows.Keys
            && (forall j :: j in s.rows && s.rows[j].dispatchedAt.None? ==> s'.rows[j] == s.rows[j])
            && s'.tasks == s.tasks && s'.events == s.events && s'.now == s.now
  {
  }

  /** The completion times out and the sweep opens the next cycle. */
  lemma TimesOut(s: State, e: Event, id: nat, h: Hung) returns (s': State)
    requires Solo(s, e, id) && Waiting(s.rows[id]) && s.rows[id].mode.External?
    requires s.rows[id].name in e.hung && e.hung[s.rows[id].name] == h && s.rows[id].name !in e.broken
    requires s.rows[id].cycles + 1 < h.cycles
    ensures Follows(s, s', e, id, 0) && Due(s'.rows[id], s'.now)
    ensures s'.rows[id].attempts == 0 && s'.rows[id].cycles == s.rows[id].cycles + 1
  {
    var expiry := s.rows[id].dispatchedAt.value + h.timeout as real + 1.0;
    var at := if expiry < s.now then s.now else expiry;
    assert SweepRuns(s);
    s' := Swept(s, at);
    SweptAlone(s.(now := at), id, h, at);
  }

  /** `k` cycles in a row. */
  lemma {:induction false} Cycles(s: State, e: Event, id: nat, h: Hung, k: nat) returns (s': State)
    requires Solo(s, e, id) && Due(s.rows[id], s.now) && s.rows[id].attempts == 0 && TargetOf(s, e, id).maxAttempts >= 1
    requires s.rows[id].mode.External? && TargetOf(s, e, id).mode.External?
    requires s.rows[id].name in e.hung && e.hung[s.rows[id].name] == h && s.rows[id].name !in e.broken
    requires k >= 1 && s.rows[id].cycles + k <= h.cycles
    ensures Follows(s, s', e, id, k * TargetOf(s, e, id).maxAttempts)
    decreases k
  {
    var max := TargetOf(s, e, id).maxAttempts;
    s' := WholeCycle(s, e, id);
    if k > 1 {
      var s2 := TimesOut(s', e, id, h);
      s' := Cycles(s2, e, id, h, k - 1);
      assert k * max == max + (k - 1) * max;
    }
  }

  /** For every event and external callback there is a run without a retry, a stale fetch or a lost
      write-back in which the row is locked exactly max_completion_cycles * max_attempts times. */
  lemma BudgetAttained(s0: State, e: Event, j: nat) returns (s: State, id: nat)
    requires Init(s0) && WellMade(e) && e.id >= 1 && OnlyOfItsName(e, j) && !e.plan[0][j].dead
    requires e.plan[0][j].name in e.targets && e.targets[e.plan[0][j].name].mode.External?
    requires e.plan[0][j].name in e.hung ==> e.plan[0][j].name !in e.broken
    ensures Solo(s, e, id) && s.rows[id].name == e.plan[0][j].name
    ensures |LocksOf(s.tasks, id)| == MaxCycles(s, id) * MaxAttempts(s, id)
  {
    var s1 := Scheduled(s0, e);
    id := RowOf(s1.rows, s0.nextRow, e, j, s0.now);
    var name := e.plan[0][j].name;
    assert LocksOf(s1.tasks, id) == {} && Excused(s1.tasks, id) == {};
    if name in e.hung && e.hung[name].cycles >= 1 {
      s := Cycles(s1, e, id, e.hung[name], e.hung[name].cycles);
    } else {
      s := WholeCycle(s1, e, id);
    }
  }
}
