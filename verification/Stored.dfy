/** The same runs, from events as publishers store them. */
module Stored {
  import opened Basics
  import opened Json
  import opened Table
  import opened Config
  import opened Callbacks
  import opened Agreement
  import opened Interpretation
  import opened Protocol
  import opened Progress
  import opened Runs
  import opened Witnesses
  import Attempts
  import Budget
  import Retention

  /** The tuple that schedules a valid callback. */
  lemma StoredEntry(raw: RawEvent, rules: Rules, cast: Cast, t: Target) returns (j: nat)
    requires !Oversized(raw, rules) && t in ParseAll(raw.callbacks, rules).valid
    ensures var e := Interpret(raw, rules, cast);
            OnlyOfItsName(e, j) && e.plan[0][j] == Entry(t.name, t.mode, false, None)
  {
    var p := ParseAll(raw.callbacks, rules);
    NothingLost(raw.callbacks.items, |raw.callbacks.items|, rules);
    j :| 0 <= j < |p.valid| && p.valid[j] == t;
    var e := Interpret(raw, rules, cast);
    assert e.plan[0] == ValidEntries(p.valid);
    EntryOnce(p.valid, e.plan[0], j);
  }

  lemma EntryOnce(valid: seq<Target>, entries: seq<Entry>, j: nat)
    requires j < |valid| && entries == ValidEntries(valid)
    requires forall i, k :: 0 <= i < k < |valid| ==> valid[i].name != valid[k].name
    ensures entries[j] == Entry(valid[j].name, valid[j].mode, false, None)
    ensures forall x :: x in entries && x.name == entries[j].name ==> x == entries[j]
  {
    forall x | x in entries && x.name == entries[j].name ensures x == entries[j] {
      var i :| 0 <= i < |entries| && entries[i] == x;
      assert valid[i].name == valid[j].name;
    }
  }

  lemma StoredTarget(raw: RawEvent, rules: Rules, cast: Cast, name: string)
    requires ValidateNamed(raw.callbacks, name, rules).Ok?
    ensures var e := Interpret(raw, rules, cast);
            && name in e.targets && e.targets[name] == ValidateNamed(raw.callbacks, name, rules).value
            && (name in e.hung <==> ReadingOf(raw, name, rules, cast).Reads?)
            && (name in e.broken <==> ReadingOf(raw, name, rules, cast).Fails?)
            && (name in e.hung ==> e.hung[name] == ReadingOf(raw, name, rules, cast).hung)
  {
    NamedIsListed(raw.callbacks, name, rules);
  }

  /** A valid external callback of a stored event is delivered. */
  lemma StoredWaits(s0: State, raw: RawEvent, rules: Rules, cast: Cast, t: Target) returns (s: State, id: nat)
    requires Init(s0) && Bounded(rules.settings) && raw.id >= 1 && !Oversized(raw, rules) && t.mode.External?
    requires t in ParseAll(raw.callbacks, rules).valid && ValidateNamed(raw.callbacks, t.name, rules) == Ok(t)
    ensures Reachable(s) && s.events == map[raw.id := Interpret(raw, rules, cast)] && id in s.rows && id in s.ensured
    ensures s.rows[id].event == raw.id && s.rows[id].name == t.name && s.rows[id].mode.External?
    ensures Waiting(s.rows[id]) && Spec(s, id).Some?
  {
    var e := Interpret(raw, rules, cast);
    InterpretWellMade(raw, rules, cast);
    StoredTarget(raw, rules, cast, t.name);
    var j := StoredEntry(raw, rules, cast, t);
    s, id := WaitingRow(s0, e, j);
  }

  // ---- shadowed callbacks ---------------------------------------------------------------------------

  /** A valid external callback named "true" behind any element that is named by the boolean and whose
      limits the sweep cannot read: it is delivered, and from then on nothing but an operator touches it. */
  lemma ShadowedSticks(s0: State, first: Json, element: Json, eventId: nat, bytes: int, at: Time, rules: Rules,
                       cast: Cast)
    returns (s: State, id: nat)
    requires Init(s0) && Bounded(rules.settings) && rules.settings.maxCallbacksPerEvent >= 2
    requires Get(first, "name") == Some(Bool(true))
    requires !ReadElement(first, rules.settings.maxCompletionCycles, cast).Reads?
    requires ParseOne(element, 1, rules).Ok? && ParseOne(element, 1, rules).value.name == "true"
    requires ParseOne(element, 1, rules).value.mode.External?
    requires eventId >= 1 && bytes <= rules.settings.payloadSizeLimitBytes
    ensures var raw := RawEvent(eventId, Arr([first, element]), bytes, at);
            Reachable(s) && s.events == map[eventId := Interpret(raw, rules, cast)]
    ensures id in s.rows && id in s.ensured && s.rows[id].name == "true" && Stuck(s, id)
    ensures forall steps :: ValidRun(s, steps) && Unattended(steps, id) ==>
              var s' := Final(s, steps); id in s'.rows && s'.rows[id] == s.rows[id] && !WillBePickedUp(s', id)
  {
    var raw := RawEvent(eventId, Arr([first, element]), bytes, at);
    var t := ParseOne(element, 1, rules).value;
    BehindBoolean(first, element, rules, cast);
    s, id := StoredWaits(s0, raw, rules, cast, t);
    StoredTarget(raw, rules, cast, "true");
    ReachableInv(s);
    forall steps | ValidRun(s, steps) && Unattended(steps, id)
      ensures var s' := Final(s, steps); id in s'.rows && s'.rows[id] == s.rows[id] && !WillBePickedUp(s', id)
    {
      StuckForever(s, steps, id, s.now);
    }
  }

  /** If a limit of that element does not cast, the row breaks the sweep: until an operator acts on it there
      is no sweep at all, and no delivered row of the table is picked up. */
  lemma ShadowedBreaks(s0: State, first: Json, element: Json, eventId: nat, bytes: int, at: Time, rules: Rules,
                       cast: Cast)
    returns (s: State, id: nat)
    requires Init(s0) && Bounded(rules.settings) && rules.settings.maxCallbacksPerEvent >= 2
    requires Get(first, "name") == Some(Bool(true))
    requires ReadElement(first, rules.settings.maxCompletionCycles, cast).Fails?
    requires ParseOne(element, 1, rules).Ok? && ParseOne(element, 1, rules).value.name == "true"
    requires ParseOne(element, 1, rules).value.mode.External?
    requires eventId >= 1 && bytes <= rules.settings.payloadSizeLimitBytes
    ensures Reachable(s) && Breaks(s, id)
    ensures forall steps :: ValidRun(s, steps) && Unattended(steps, id) ==>
              && NoSweep(steps)
              && forall j :: j in Final(s, steps).rows && Waiting(Final(s, steps).rows[j]) ==>
                   !WillBePickedUp(Final(s, steps), j)
  {
    var raw := RawEvent(eventId, Arr([first, element]), bytes, at);
    BehindBoolean(first, element, rules, cast);
    s, id := StoredWaits(s0, raw, rules, cast, ParseOne(element, 1, rules).value);
    StoredTarget(raw, rules, cast, "true");
    ReachableInv(s);
    assert Breaks(s, id);
    forall steps | ValidRun(s, steps) && Unattended(steps, id)
      ensures NoSweep(steps)
      ensures forall j :: j in Final(s, steps).rows && Waiting(Final(s, steps).rows[j]) ==>
                !WillBePickedUp(Final(s, steps), j)
    {
      SweepDisabled(s, steps, id);
    }
  }

  // ---- invalid rows -----------------------------------------------------------------------------------

  /** An oversized event with a valid external callback: its row is recorded as invalid, and once an operator
      retries it and it is delivered, it is stuck. */
  lemma OversizedRetrySticks(s0: State, raw: RawEvent, element: Json, rules: Rules, cast: Cast)
    returns (s: State, id: nat)
    requires Init(s0) && Bounded(rules.settings) && raw.id >= 1 && Oversized(raw, rules)
    requires raw.callbacks == Arr([element])
    requires ParseOne(element, 0, rules).Ok? && ParseOne(element, 0, rules).value.mode.External?
    ensures Reachable(s) && s.events == map[raw.id := Interpret(raw, rules, cast)]
    ensures id in s.rows && id !in s.ensured && Stuck(s, id)
  {
    var e, t := Interpret(raw, rules, cast), ParseOne(element, 0, rules).value;
    InterpretWellMade(raw, rules, cast);
    ParseOneSpec(element, 0, rules);
    assert FindName([element], t.name) == Some(0);
    StoredTarget(raw, rules, cast, t.name);
    assert e.plan[0] == DeadEntries(ExtractNames(raw.callbacks), rules.message(PayloadTooLarge));
    assert |e.plan[0]| == 1 && e.plan[0][0].name == t.name && e.plan[0][0].dead;
    s, id := RetriedInvalid(s0, e, 0);
  }

  /** A stored event with valid and invalid callbacks: the only replica crashes after scheduling the valid
      ones, and an invalid one has no row until a rescan. */
  lemma InvalidLost(s0: State, raw: RawEvent, rules: Rules, cast: Cast, j: nat) returns (s: State)
    requires Init(s0) && Bounded(rules.settings) && raw.id >= 1 && !Oversized(raw, rules)
    requires ParseAll(raw.callbacks, rules).valid != [] && j < |ParseAll(raw.callbacks, rules).invalid|
    requires forall t :: t in ParseAll(raw.callbacks, rules).valid ==>
              t.name != ParseAll(raw.callbacks, rules).invalid[j].name
    ensures Reachable(s) && s.events == map[raw.id := Interpret(raw, rules, cast)]
    ensures s.scheds == map[0 := StartAt(raw.id)]
    ensures forall steps :: IsRun(s, steps) && NoRescan(steps) ==>
              !HasRow(Final(s, steps).rows, raw.id, ParseAll(raw.callbacks, rules).invalid[j].name)
  {
    var e, p := Interpret(raw, rules, cast), ParseAll(raw.callbacks, rules);
    InterpretWellMade(raw, rules, cast);
    var plan: seq<seq<Entry>> := Plan(raw, rules);
    assert plan == [ValidEntries(p.valid), InvalidEntries(p.invalid, rules)];
    assert e.plan == plan && e.id == raw.id;
    forall x | x in plan[0] ensures x.name != plan[1][j].name {
      var i :| 0 <= i < |plan[0]| && plan[0][i] == x;
      assert x.name == p.valid[i].name && p.valid[i] in p.valid;
    }
    s := CrashBetweenStatements(s0, e, j);
    ReachableInv(s);
    forall steps | IsRun(s, steps) && NoRescan(steps)
      ensures !HasRow(Final(s, steps).rows, raw.id, p.invalid[j].name)
    {
      NeverRecorded(s, steps, raw.id, p.invalid[j].name);
    }
  }

  /** For example any valid callback followed by a JSON null. */
  lemma NullIsLost(s0: State, raw: RawEvent, element: Json, rules: Rules, cast: Cast) returns (s: State)
    requires Init(s0) && Bounded(rules.settings) && raw.id >= 1 && !Oversized(raw, rules)
    requires rules.settings.maxCallbacksPerEvent >= 2
    requires raw.callbacks == Arr([element, Null]) && ParseOne(element, 0, rules).Ok?
    ensures Reachable(s) && s.events == map[raw.id := Interpret(raw, rules, cast)]
    ensures forall steps :: IsRun(s, steps) && NoRescan(steps) ==>
              !HasRow(Final(s, steps).rows, raw.id, Position(1))
  {
    var items := [element, Null];
    var t := ParseOne(element, 0, rules).value;
    ParseOneSpec(element, 0, rules);
    assert ParseItems(items, 0, rules) == Parsed([], []);
    assert ParseItems(items, 1, rules) == Parsed([t], []);
    assert ParseItems(items, 2, rules) == Parsed([t], [Invalid(Position(1), NotAnObject)]);
    assert t.name[0] != Position(1)[0];
    s := InvalidLost(s0, raw, rules, cast, 0);
  }

  // ---- the target's own limits ----------------------------------------------------------------------------

  /** Some run locks the row more often than its target's own limits allow. */
  ghost predicate Exceeds(raw: RawEvent, rules: Rules, cast: Cast, t: Target) {
    exists s, id ::
      && Reachable(s) && raw.id in s.events && s.events[raw.id] == Interpret(raw, rules, cast)
      && id in s.rows && s.rows[id].event == raw.id && s.rows[id].name == t.name && id !in s.retried
      && |Attempts.LocksOf(s.tasks, id)| > t.maxCycles * t.maxAttempts + |Attempts.Excused(s.tasks, id)|
  }

  /** That is so exactly if the sweep reads a cycle limit for it above its own. */
  lemma ExceedsExactly(s0: State, raw: RawEvent, rules: Rules, cast: Cast, t: Target)
    requires Init(s0) && Bounded(rules.settings) && raw.id >= 1 && !Oversized(raw, rules) && t.mode.External?
    requires t in ParseAll(raw.callbacks, rules).valid && ValidateNamed(raw.callbacks, t.name, rules) == Ok(t)
    ensures Exceeds(raw, rules, cast, t) <==>
              ReadingOf(raw, t.name, rules, cast).Reads? &&
                  ReadingOf(raw, t.name, rules, cast).hung.cycles > t.maxCycles
  {
    StoredTarget(raw, rules, cast, t.name);
    var i := FindName(raw.callbacks.items, t.name).value;
    TargetWithinLimits(raw.callbacks.items[i], i, rules);
    var reading := ReadingOf(raw, t.name, rules, cast);
    if Exceeds(raw, rules, cast, t) {
      ExceedsOnlyIf(raw, rules, cast, t);
    }
    if reading.Reads? && reading.hung.cycles > t.maxCycles {
      ExceedsIf(s0, raw, rules, cast, t);
    }
  }

  lemma ExceedsOnlyIf(raw: RawEvent, rules: Rules, cast: Cast, t: Target)
    requires Exceeds(raw, rules, cast, t) && ValidateNamed(raw.callbacks, t.name, rules) == Ok(t) && t.maxCycles >= 1
    ensures ReadingOf(raw, t.name, rules, cast).Reads? && ReadingOf(raw, t.name, rules, cast).hung.cycles > t.maxCycles
  {
    StoredTarget(raw, rules, cast, t.name);
    var s, id :|
      && Reachable(s) && raw.id in s.events && s.events[raw.id] == Interpret(raw, rules, cast)
      && id in s.rows && s.rows[id].event == raw.id && s.rows[id].name == t.name && id !in s.retried
      && |Attempts.LocksOf(s.tasks, id)| > t.maxCycles * t.maxAttempts + |Attempts.Excused(s.tasks, id)|;
    BoundedLocks(s, id);
    var c := Attempts.MaxCycles(s, id);
    if c <= t.maxCycles { Product(c, t.maxCycles, t.maxAttempts); }
  }

  lemma ExceedsIf(s0: State, raw: RawEvent, rules: Rules, cast: Cast, t: Target)
    requires Init(s0) && Bounded(rules.settings) && raw.id >= 1 && !Oversized(raw, rules) && t.mode.External?
    requires t in ParseAll(raw.callbacks, rules).valid && ValidateNamed(raw.callbacks, t.name, rules) == Ok(t)
    requires t.maxAttempts >= 1
    requires ReadingOf(raw, t.name, rules, cast).Reads? && ReadingOf(raw, t.name, rules, cast).hung.cycles > t.maxCycles
    ensures Exceeds(raw, rules, cast, t)
  {
    var s, id := StoredBudget(s0, raw, rules, cast, t);
    OverBudget(ReadingOf(raw, t.name, rules, cast).hung.cycles, t.maxCycles, t.maxAttempts);
    Witness(raw, rules, cast, t, s, id);
  }

  /** A run that locks the row of a stored callback as often as the sweep's reading allows. */
  lemma StoredBudget(s0: State, raw: RawEvent, rules: Rules, cast: Cast, t: Target) returns (s: State, id: nat)
    requires Init(s0) && Bounded(rules.settings) && raw.id >= 1 && !Oversized(raw, rules) && t.mode.External?
    requires t in ParseAll(raw.callbacks, rules).valid && ValidateNamed(raw.callbacks, t.name, rules) == Ok(t)
    requires ReadingOf(raw, t.name, rules, cast).Reads? && ReadingOf(raw, t.name, rules, cast).hung.cycles >= 1
    ensures Reachable(s) && s.events == map[raw.id := Interpret(raw, rules, cast)]
    ensures id in s.rows && s.rows[id].event == raw.id && s.rows[id].name == t.name && id !in s.retried
    ensures |Attempts.LocksOf(s.tasks, id)| == ReadingOf(raw, t.name, rules, cast).hung.cycles * t.maxAttempts
    ensures Attempts.Excused(s.tasks, id) == {}
  {
    InterpretWellMade(raw, rules, cast);
    StoredTarget(raw, rules, cast, t.name);
    var j := StoredEntry(raw, rules, cast, t);
    s, id := Budget.BudgetAttained(s0, Interpret(raw, rules, cast), j);
    StoredLimits(s, id, Interpret(raw, rules, cast), t, ReadingOf(raw, t.name, rules, cast).hung);
  }

  lemma StoredLimits(s: State, id: nat, e: Event, t: Target, h: Hung)
    requires id in s.rows && s.rows[id].event in s.events && s.events[s.rows[id].event] == e
    requires s.rows[id].name == t.name
    requires t.name in e.targets && e.targets[t.name] == t && t.name in e.hung && e.hung[t.name] == h && h.cycles >= 1
    ensures Attempts.MaxAttempts(s, id) == t.maxAttempts && Attempts.MaxCycles(s, id) == h.cycles
  {
  }

  lemma OverBudget(c: nat, own: nat, max: nat)
    requires c >= own + 1 && max >= 1
    ensures c * max > own * max
  {
    Product(own + 1, c, max);
    assert (own + 1) * max == own * max + max;
  }

  lemma Witness(raw: RawEvent, rules: Rules, cast: Cast, t: Target, s: State, id: nat)
    requires Reachable(s) && raw.id in s.events && s.events[raw.id] == Interpret(raw, rules, cast)
    requires id in s.rows && s.rows[id].event == raw.id && s.rows[id].name == t.name && id !in s.retried
    requires |Attempts.LocksOf(s.tasks, id)| > t.maxCycles * t.maxAttempts + |Attempts.Excused(s.tasks, id)|
    ensures Exceeds(raw, rules, cast, t)
  {
  }

  // ---- retention before scheduling ----------------------------------------------------------------------------

  /** A stored event older than the processed window is deleted by the first retention cycle that finds it
      before a scheduler does, and none of its callbacks gets a row in any continuation. */
  lemma UnscheduledLost(s0: State, raw: RawEvent, rules: Rules, cast: Cast, c: Retention.Cutoffs, limit: nat)
    returns (before: State, s: State)
    requires Init(s0) && Bounded(rules.settings) && raw.id >= 1 && raw.createdAt < c.processed && limit >= 1
    ensures Reachable(before) && before.events == map[raw.id := Interpret(raw, rules, cast)] && before.rows == map[]
    ensures var doomed := Retention.Doomed(map[raw.id := raw], before.rows, c, limit);
            Enabled(before, Retain(doomed)) && s == Apply(before, Retain(doomed))
    ensures Reachable(s) && raw.id !in s.events
    ensures forall steps, name :: IsRun(s, steps) ==> !HasRow(Final(s, steps).rows, raw.id, name)
  {
    Retention.UnscheduledExactly((map[raw.id := raw], map[]), c, limit, raw.id);
    assert Retention.EligibleBelow(map[raw.id := raw], map[], c, raw.id) == {};
    InterpretWellMade(raw, rules, cast);
    before, s := DeletedUnscheduled(s0, Interpret(raw, rules, cast));
    assert Retention.Doomed(map[raw.id := raw], map[], c, limit) == {raw.id};
    ReachableInv(s);
    forall steps, name | IsRun(s, steps) ensures !HasRow(Final(s, steps).rows, raw.id, name) {
      VanishedForever(s, steps, raw.id);
    }
  }
}
