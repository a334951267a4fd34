/** The time by which a delivery that always fails is dead-lettered. */
module Deadline {
  import opened Basics
  import opened Table
  import opened Protocol
  import opened Leases
  import opened Progress
  import opened Retry
  import opened Runs
  import opened Witnesses

  /** What the receiver and the random draw say to an attempt. */
  datatype Answer = Answer(retryAfter: Option<real>, jitter: real)

  /** A delivery under pursuit: its row, its target, how soon a due row is picked up, and the answers by
      attempt number. */
  datatype Pursuit = Pursuit(id: nat, target: Target, start: Time, buffer: Time, pickup: Time, answers: nat -> Answer)

  ghost predicate Fair(p: Pursuit) {
    p.target.maxAttempts >= 1 && 0.0 <= p.buffer && 0.0 <= p.pickup && forall k :: Jitter(p.answers(k).jitter)
  }

  /** The longest an attempt can take from the time the row is due. */
  function Turn(p: Pursuit): Time {
    p.target.timeout as real + p.buffer + p.pickup
  }

  function UpperOf(p: Pursuit, k: nat): (d: real)
    ensures d >= 0.0
  {
    Upper(k, p.answers(k).retryAfter, p.target.backoff)
  }

  /** When the row is due at the latest after `k` attempts. */
  function Latest(p: Pursuit, k: nat): Time {
    if k == 0 then p.start else Latest(p, k - 1) + Turn(p) + UpperOf(p, k)
  }

  /**
   The step of one crash-free replica and a receiver that always fails:
   - a free live row is locked before it has been due for `pickup`, with the attempt count it has;
   - a locked row is written back before its lease runs out;
   - the write-back is a failure, delayed as `compute_next_available_at` says;
   - no operator acts on the row.
   Steps on other rows are not restricted.
   */
  predicate Prompt(s: State, step: Step, p: Pursuit) {
    && !ActsOn(step, p.id)
    && (step.Tick? && p.id in s.rows && !s.rows[p.id].deadLetter ==> step.to <= Patience(s.rows[p.id], p.pickup))
    && (step.Take? && step.task in s.tasks && s.tasks[step.task].row == p.id && p.id in s.rows ==>
          && s.tasks[step.task].attempts == s.rows[p.id].attempts
          && s.now <= step.start + p.target.timeout as real + s.lockBuffer)
    && (step.Succeed? && step.task in s.tasks ==> s.tasks[step.task].row != p.id)
    && (step.Fail? && step.task in s.tasks && s.tasks[step.task].row == p.id ==>
          step.availableAt == NextFor(p, s.tasks[step.task].attempts + 1, s.now))
  }

  function Patience(r: Row, pickup: Time): Time {
    if r.lockedUntil.Some? then r.lockedUntil.value else r.availableAt + pickup
  }

  function NextFor(p: Pursuit, k: nat, now: Time): Time {
    NextAvailable(k, p.answers(k).retryAfter, p.target.backoff, p.answers(k).jitter, now)
  }

  predicate PromptRun(s: State, steps: seq<Step>, p: Pursuit)
    requires IsRun(s, steps)
    decreases |steps|
  {
    steps == [] || (Prompt(s, steps[0], p) && PromptRun(Apply(s, steps[0]), steps[1..], p))
  }

  // ---- the invariant -----------------------------------------------------------------------------------

  /** Where the row stands: exhausted, free and due in time, or locked with a lease that ends in time. */
  ghost predicate OnTime(r: Row, now: Time, p: Pursuit) {
    if r.deadLetter then r.attempts == p.target.maxAttempts && r.lockedUntil.None?
    else if r.lockedUntil.None? then
      && r.attempts < p.target.maxAttempts && r.availableAt <= Latest(p, r.attempts)
      && now <= r.availableAt + p.pickup
    else
      && 1 <= r.attempts <= p.target.maxAttempts
      && now <= r.lockedUntil.value <= Latest(p, r.attempts - 1) + Turn(p)
  }

  ghost predicate Pursued(s: State, p: Pursuit) {
    && p.id < s.nextRow && s.lockBuffer == p.buffer
    && (p.id in s.rows ==>
          && Spec(s, p.id) == Some(p.target) && s.rows[p.id].dispatchedAt.None? && s.rows[p.id].processedAt.None?
          && OnTime(s.rows[p.id], s.now, p))
    && (forall u :: Flying(s, u) && s.tasks[u].row == p.id ==> !s.tasks[u].stage.stale)
  }

  // ---- one row, one statement -----------------------------------------------------------------------------

  lemma OnTimeLock(r: Row, now: Time, begun: Time, p: Pursuit)
    requires Fair(p) && OnTime(r, now, p) && Lockable(r, now) && begun <= now
    requires now <= begun + p.target.timeout as real + p.buffer
    ensures OnTime(LockRow(r, begun + p.target.timeout as real + p.buffer, now), now, p)
  {
    var until := begun + p.target.timeout as real + p.buffer;
    assert r.lockedUntil.None?;
    assert until <= r.availableAt + Turn(p);
  }

  lemma OnTimeFail(r: Row, now: Time, error: string, p: Pursuit)
    requires Fair(p) && OnTime(r, now, p) && r.lockedUntil.Some? && !r.deadLetter
    ensures OnTime(FailRow(r, error, NextFor(p, r.attempts, now), r.attempts >= p.target.maxAttempts), now, p)
  {
    var k := r.attempts;
    NextWithin(k, p.answers(k).retryAfter, p.target.backoff, p.answers(k).jitter, now);
    assert Latest(p, k) == Latest(p, k - 1) + Turn(p) + UpperOf(p, k);
  }

  // ---- every step -------------------------------------------------------------------------------------------

  lemma PursuedKept(s: State, s': State, p: Pursuit)
    requires Pursued(s, p) && p.id < s'.nextRow && s'.lockBuffer == s.lockBuffer && s'.now == s.now
    requires p.id in s'.rows ==> p.id in s.rows && s'.rows[p.id] == s.rows[p.id] && Spec(s', p.id) == Spec(s, p.id)
    requires forall u :: Flying(s', u) && s'.tasks[u].row == p.id ==> Flying(s, u) && s'.tasks[u] == s.tasks[u]
    ensures Pursued(s', p)
  {
  }

  lemma PursuedTake(s: State, t: nat, begun: Time, p: Pursuit)
    requires Fair(p) && KeyInv(s) && Pursued(s, p) && Enabled(s, Take(t, begun)) && Prompt(s, Take(t, begun), p)
    requires s.tasks[t].row == p.id
    ensures Pursued(Apply(s, Take(t, begun)), p)
  {
    var s' := Apply(s, Take(t, begun));
    assert Spec(s, p.id) == Some(s.tasks[t].target);
    OnTimeLock(s.rows[p.id], s.now, begun, p);
    assert Spec(s', p.id) == Spec(s, p.id);
    assert forall u :: Flying(s', u) && u != t ==> Flying(s, u) && s'.tasks[u] == s.tasks[u];
  }

  lemma PursuedFail(s: State, t: nat, error: string, at: Time, p: Pursuit)
    requires Fair(p) && KeyInv(s) && LeaseInv(s) && Pursued(s, p) && Enabled(s, Fail(t, error, at)) && Flying(s, t)
    requires Prompt(s, Fail(t, error, at), p) && s.tasks[t].row == p.id
    ensures Pursued(Apply(s, Fail(t, error, at)), p)
  {
    var s' := Apply(s, Fail(t, error, at));
    assert Spec(s, p.id) == Some(s.tasks[t].target) && HoldsLease(s, t);
    assert !s.rows[p.id].deadLetter && s.rows[p.id].attempts == s.tasks[t].attempts + 1;
    OnTimeFail(s.rows[p.id], s.now, error, p);
    assert Spec(s', p.id) == Spec(s, p.id);
    assert forall u :: Flying(s', u) ==> Flying(s, u) && s'.tasks[u] == s.tasks[u];
  }

  lemma PursuedTick(s: State, to: Time, p: Pursuit)
    requires Pursued(s, p) && Enabled(s, Tick(to)) && Prompt(s, Tick(to), p)
    ensures Pursued(Apply(s, Tick(to)), p)
  {
    var s' := Apply(s, Tick(to));
    assert Spec(s', p.id) == Spec(s, p.id);
    assert forall u :: Flying(s', u) ==> Flying(s, u);
  }

  lemma ElsewhereDispatch(s: State, step: Step, id: nat)
    requires Enabled(s, step) && DispatchStep(step) && id in s.rows
    requires s.tasks[step.task].row != id || step.Skip? || step.Lose?
    ensures Apply(s, step).rows[id] == s.rows[id]
    ensures forall u :: Flying(Apply(s, step), u) && Apply(s, step).tasks[u].row == id ==>
              Flying(s, u) && Apply(s, step).tasks[u] == s.tasks[u]
  {
  }

  lemma ElsewhereOperator(s: State, step: Step, id: nat)
    requires Enabled(s, step) && OperatorStep(step) && id in s.rows && !ActsOn(step, id)
    requires Spec(s, id).Some? && s.rows[id].dispatchedAt.None?
    ensures id in Apply(s, step).rows && Apply(s, step).rows[id] == s.rows[id] && Apply(s, step).tasks == s.tasks
  {
  }

  lemma PursuedOther(s: State, step: Step, p: Pursuit)
    requires KeyInv(s) && Pursued(s, p) && Enabled(s, step) && Prompt(s, step, p) && !step.Tick?
    requires (step.Take? || step.Fail?) ==> s.tasks[step.task].row != p.id
    ensures Pursued(Apply(s, step), p)
  {
    var s' := Apply(s, step);
    RowIdentity(s, step, p.id);
    NoNewFlight(s, step, p.id);
    if p.id in s'.rows {
      if DispatchStep(step) { ElsewhereDispatch(s, step, p.id); }
      else if OperatorStep(step) { ElsewhereOperator(s, step, p.id); }
      else if !GrowStep(step) { IdleStepSpec(s, step); }
    }
    SameClock(s, step);
    PursuedKept(s, s', p);
  }

  lemma SameClock(s: State, step: Step)
    requires Enabled(s, step) && !step.Tick?
    ensures Apply(s, step).now == s.now && Apply(s, step).lockBuffer == s.lockBuffer
  {
  }

  /** Only a lock on the row puts a task on it in flight. */
  lemma NoNewFlight(s: State, step: Step, id: nat)
    requires Enabled(s, step) && !step.Tick? && (step.Take? ==> s.tasks[step.task].row != id)
    ensures var s' := Apply(s, step);
            forall u :: Flying(s', u) && s'.tasks[u].row == id ==> Flying(s, u) && s'.tasks[u] == s.tasks[u]
  {
  }

  lemma PursuedStep(s: State, step: Step, p: Pursuit)
    requires Fair(p) && KeyInv(s) && LeaseInv(s) && Pursued(s, p)
    requires Enabled(s, step) && WellTimed(s, step) && Prompt(s, step, p)
    ensures Pursued(Apply(s, step), p)
  {
    if step.Tick? { PursuedTick(s, step.to, p); }
    else if step.Take? && s.tasks[step.task].row == p.id { PursuedTake(s, step.task, step.start, p); }
    else if step.Fail? && s.tasks[step.task].row == p.id { PursuedFail(s, step.task, step.error, step.availableAt, p); }
    else { PursuedOther(s, step, p); }
  }

  lemma {:induction false} PursuedRun(s: State, steps: seq<Step>, p: Pursuit)
    requires Fair(p) && KeyInv(s) && LeaseInv(s) && Pursued(s, p) && ValidRun(s, steps) && PromptRun(s, steps, p)
    ensures Pursued(Final(s, steps), p)
    decreases |steps|
  {
    if steps != [] {
      PursuedStep(s, steps[0], p);
      KeyInvStep(s, steps[0]);
      LeaseInvStep(s, steps[0]);
      PursuedRun(Apply(s, steps[0]), steps[1..], p);
    }
  }

  // ---- the deadline ---------------------------------------------------------------------------------------------

  /** The upper bounds of the delays after the first `n` attempts. */
  function Uppers(p: Pursuit, n: nat): real {
    if n == 0 then 0.0 else Uppers(p, n - 1) + UpperOf(p, n)
  }

  function Times(n: nat, x: real): real {
    if n == 0 then 0.0 else x + Times(n - 1, x)
  }

  lemma {:induction false} TimesIs(n: nat, x: real)
    ensures Times(n, x) == n as real * x
  {
    if n > 0 {
      TimesIs(n - 1, x);
      assert n as real * x == x + (n - 1) as real * x;
    }
  }

  lemma {:induction false} LatestIs(p: Pursuit, n: nat)
    ensures Latest(p, n) == p.start + Uppers(p, n) + Times(n, Turn(p))
  {
    if n > 0 { LatestIs(p, n - 1); }
  }

  lemma {:induction false} LatestGrows(p: Pursuit, k: nat, n: nat)
    requires Fair(p) && k <= n
    ensures Latest(p, k) <= Latest(p, n)
  {
    if k < n { LatestGrows(p, k, n - 1); }
  }

  /** The deadline: the summed upper bounds, and timeout, lease buffer and pick-up for every attempt. */
  function Limit(p: Pursuit): Time
    requires p.target.maxAttempts >= 1
  {
    p.start + Uppers(p, p.target.maxAttempts - 1) + p.target.maxAttempts as real * Turn(p)
  }

  lemma LimitIs(p: Pursuit)
    requires p.target.maxAttempts >= 1
    ensures Limit(p) == Latest(p, p.target.maxAttempts - 1) + Turn(p)
  {
    LatestIs(p, p.target.maxAttempts - 1);
    TimesIs(p.target.maxAttempts, Turn(p));
  }

  lemma OnTimeBound(r: Row, now: Time, p: Pursuit)
    requires Fair(p) && OnTime(r, now, p) && !r.deadLetter
    ensures now <= Latest(p, p.target.maxAttempts - 1) + Turn(p)
  {
    var n := p.target.maxAttempts - 1;
    LatestGrows(p, if r.lockedUntil.None? then r.attempts else r.attempts - 1, n);
  }

  /** The row is new: nobody has locked it, and it has not been due for longer than the pick-up time. */
  ghost predicate Starts(s: State, p: Pursuit) {
    && p.id in s.rows && Spec(s, p.id) == Some(p.target) && s.lockBuffer == p.buffer
    && Due(s.rows[p.id], s.rows[p.id].availableAt) && s.rows[p.id].lockedUntil.None?
    && s.rows[p.id].attempts == 0 && s.rows[p.id].availableAt == p.start && s.now <= p.start + p.pickup
  }

  lemma StartsPursued(s: State, p: Pursuit)
    requires Fair(p) && KeyInv(s) && LeaseInv(s) && Starts(s, p)
    ensures Pursued(s, p)
  {
    assert forall u :: Flying(s, u) && s.tasks[u].row == p.id ==> HoldsLease(s, u);
  }

  /** In every well-timed run of one prompt replica against a receiver that always fails, the row is
      dead-lettered by its last attempt and not before, and in any case once the deadline has passed; until
      then it is due again as soon as its time comes. */
  lemma DeadLetterDeadline(s: State, steps: seq<Step>, p: Pursuit)
    requires Fair(p) && KeyInv(s) && LeaseInv(s) && Starts(s, p) && ValidRun(s, steps) && PromptRun(s, steps, p)
    ensures var s', n := Final(s, steps), p.target.maxAttempts;
            p.id in s'.rows ==>
              && s'.rows[p.id].attempts <= n
              && (s'.rows[p.id].deadLetter <==> s'.rows[p.id].attempts == n && s'.rows[p.id].lockedUntil.None?)
              && (s'.now > Limit(p) ==> s'.rows[p.id].deadLetter)
              && (!s'.rows[p.id].deadLetter && s'.rows[p.id].lockedUntil.None? ==>
                    Due(s'.rows[p.id], s'.rows[p.id].availableAt))
  {
    StartsPursued(s, p);
    PursuedRun(s, steps, p);
    var s' := Final(s, steps);
    if p.id in s'.rows && !s'.rows[p.id].deadLetter {
      OnTimeBound(s'.rows[p.id], s'.now, p);
      LimitIs(p);
    }
  }

  // ---- the deadline can be passed ---------------------------------------------------------------------------------

  /** The run is prompt and well timed, and ends in `s'`. */
  ghost predicate Leads(s: State, steps: seq<Step>, s': State, p: Pursuit) {
    ValidRun(s, steps) && PromptRun(s, steps, p) && Final(s, steps) == s'
  }

  lemma LeadsOne(s: State, step: Step, p: Pursuit)
    requires Enabled(s, step) && WellTimed(s, step) && Prompt(s, step, p)
    ensures Leads(s, [step], Apply(s, step), p)
  {
    var s' := Apply(s, step);
    assert [step][1..] == [] && IsRun(s', []) && Punctual(s', []) && PromptRun(s', [], p) && Final(s', []) == s';
  }

  lemma {:induction false} LeadsBoth(s: State, a: seq<Step>, s1: State, b: seq<Step>, s2: State, p: Pursuit)
    requires Leads(s, a, s1, p) && Leads(s1, b, s2, p)
    ensures Leads(s, a + b, s2, p)
    decreases |a|
  {
    if a == [] {
      assert a + b == b;
    } else {
      assert (a + b)[0] == a[0] && (a + b)[1..] == a[1..] + b;
      LeadsBoth(Apply(s, a[0]), a[1..], s1, b, s2, p);
    }
  }

  /** The row is free, and not yet due for longer than the pick-up time. */
  ghost predicate Ready(s: State, p: Pursuit) {
    && p.id in s.rows && Spec(s, p.id) == Some(p.target) && s.lockBuffer == p.buffer
    && Live(s.rows[p.id]) && s.rows[p.id].dispatchedAt.None? && s.rows[p.id].lockedUntil.None?
    && s.rows[p.id].attempts < p.target.maxAttempts && s.now <= s.rows[p.id].availableAt + p.pickup
  }

  lemma WaitsUntilDue(s: State, p: Pursuit) returns (s': State, steps: seq<Step>)
    requires Fair(p) && Ready(s, p)
    ensures Leads(s, steps, s', p) && Ready(s', p) && s'.rows == s.rows && Due(s'.rows[p.id], s'.now)
  {
    var at := s.rows[p.id].availableAt;
    var step := Tick(if s.now < at then at else s.now);
    s', steps := Apply(s, step), [step];
    LeadsOne(s, step, p);
  }

  lemma IsFetched(s: State, p: Pursuit, u: nat) returns (s': State, steps: seq<Step>)
    requires Ready(s, p) && Due(s.rows[p.id], s.now) && u !in s.tasks
    ensures Leads(s, steps, s', p)
    ensures s' == SetTask(s, u, Task(p.id, s.rows[p.id].attempts, p.target, Fetched))
  {
    s', steps := Apply(s, Fetch(u, p.id)), [Fetch(u, p.id)];
    LeadsOne(s, Fetch(u, p.id), p);
  }

  lemma IsLocked(s: State, p: Pursuit, u: nat) returns (s': State, steps: seq<Step>)
    requires Fair(p) && Ready(s, p) && u in s.tasks
    requires s.tasks[u] == Task(p.id, s.rows[p.id].attempts, p.target, Fetched)
    ensures Leads(s, steps, s', p)
    ensures s' == DoTake(s, u, s.now + p.target.timeout as real + p.buffer)
  {
    s', steps := Apply(s, Take(u, s.now)), [Take(u, s.now)];
    LeadsOne(s, Take(u, s.now), p);
  }

  lemma IsRefused(s: State, p: Pursuit, u: nat) returns (s': State, steps: seq<Step>)
    requires Flying(s, u) && s.tasks[u].row == p.id && p.id in s.rows
    ensures Leads(s, steps, s', p)
    ensures var at := NextFor(p, s.tasks[u].attempts + 1, s.now);
            s' == DoWrite(s, u, FailureRow(s, u, "refused", at))
  {
    var step := Fail(u, "refused", NextFor(p, s.tasks[u].attempts + 1, s.now));
    s', steps := Apply(s, step), [step];
    LeadsOne(s, step, p);
  }

  /** One failing attempt. */
  lemma OneRound(s: State, p: Pursuit) returns (s': State, steps: seq<Step>)
    requires Fair(p) && Ready(s, p)
    ensures Leads(s, steps, s', p) && p.id in s'.rows && s'.rows[p.id].attempts == s.rows[p.id].attempts + 1
    ensures if s'.rows[p.id].attempts == p.target.maxAttempts then s'.rows[p.id].deadLetter else Ready(s', p)
  {
    var s1, a := WaitsUntilDue(s, p);
    var u := Unused(s1.tasks);
    var s2, b := IsFetched(s1, p, u);
    var s3, c := IsLocked(s2, p, u);
    var s4, d := IsRefused(s3, p, u);
    LeadsBoth(s, a, s1, b, s2, p);
    LeadsBoth(s, a + b, s2, c, s3, p);
    LeadsBoth(s, a + b + c, s3, d, s4, p);
    var k := s.rows[p.id].attempts + 1;
    NextWithin(k, p.answers(k).retryAfter, p.target.backoff, p.answers(k).jitter, s3.now);
    s', steps := s4, a + b + c + d;
  }

  lemma {:induction false} AllRounds(s: State, p: Pursuit) returns (s': State, steps: seq<Step>)
    requires Fair(p) && Ready(s, p)
    ensures Leads(s, steps, s', p) && p.id in s'.rows && s'.rows[p.id].deadLetter
    decreases p.target.maxAttempts - s.rows[p.id].attempts
  {
    s', steps := OneRound(s, p);
    if s'.rows[p.id].attempts != p.target.maxAttempts {
      var s2, more := AllRounds(s', p);
      LeadsBoth(s, steps, s', more, s2, p);
      s', steps := s2, steps + more;
    }
  }

  /** From a database in which the first attempt is still to come, for any answers of the receiver, there is a
      prompt well-timed run that dead-letters the row and passes the deadline. */
  lemma DeadlinePassed(s: State, p: Pursuit) returns (s': State, steps: seq<Step>)
    requires Fair(p) && Starts(s, p)
    ensures Leads(s, steps, s', p) && s'.now > Limit(p) && p.id in s'.rows && s'.rows[p.id].deadLetter
  {
    var s1, a := AllRounds(s, p);
    var step := Tick(if s1.now < Limit(p) then Limit(p) + 1.0 else s1.now + 1.0);
    LeadsOne(s1, step, p);
    LeadsBoth(s, a, s1, [step], Apply(s1, step), p);
    s', steps := Apply(s1, step), a + [step];
  }

  /** Such databases are reachable: a callback that has just been scheduled. */
  lemma StartsHappens(s0: State, e: Event, j: nat, pickup: Time, answers: nat -> Answer) returns (s: State, p: Pursuit)
    requires Init(s0) && WellMade(e) && e.id >= 1 && OnlyOfItsName(e, j) && !e.plan[0][j].dead && 0.0 <= pickup
    requires e.plan[0][j].name in e.targets && forall k :: Jitter(answers(k).jitter)
    ensures Reachable(s) && Fair(p) && Starts(s, p)
    ensures p == Pursuit(p.id, e.targets[e.plan[0][j].name], s.now, s0.lockBuffer, pickup, answers)
  {
    s := Scheduled(s0, e);
    var id := RowOf(s.rows, s0.nextRow, e, j, s0.now);
    p := Pursuit(id, e.targets[e.plan[0][j].name], s.now, s0.lockBuffer, pickup, answers);
  }
}
