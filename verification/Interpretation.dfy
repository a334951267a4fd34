/** From the stored event to what the protocol does with it. */
module Interpretation {
  import opened Basics
  import opened Json
  import opened Table
  import opened Config
  import opened Callbacks
  import opened Agreement
  import opened Protocol
  import opened Progress
  import opened Runs
  import Attempts
  import Cursor

  datatype RawEvent = RawEvent(id: nat, callbacks: Json, payloadBytes: int, createdAt: Time)

  /** CHECK constraint on `outbox_events.callbacks`. */
  predicate Stored(raw: RawEvent) {
    raw.callbacks.Arr? && raw.callbacks.items != []
  }

  /** `extract_callback_names`. */
  function ExtractNames(callbacks: Json): (names: seq<string>)
    ensures callbacks.Arr? ==> |names| == |callbacks.items|
    ensures callbacks.Arr? ==> forall i :: 0 <= i < |names| ==> names[i] == LabelOf(callbacks.items, i)
  {
    if callbacks.Arr?
    then seq(|callbacks.items|, i requires 0 <= i < |callbacks.items| => LabelOf(callbacks.items, i))
    else []
  }

  function DeadEntries(names: seq<string>, message: string): (entries: seq<Entry>)
    ensures |entries| == |names| && forall i :: 0 <= i < |names| ==>
              entries[i] == Entry(names[i], Managed, true, Some(message))
  {
    seq(|names|, i requires 0 <= i < |names| => Entry(names[i], Managed, true, Some(message)))
  }

  function InvalidEntries(invalid: seq<Invalid>, rules: Rules): (entries: seq<Entry>)
    ensures |entries| == |invalid| &&
            forall i :: 0 <= i < |invalid| ==>
                entries[i] == Entry(invalid[i].name, Managed, true, Some(rules.message(invalid[i].reason)))
  {
    seq(|invalid|, i requires 0 <= i < |invalid| =>
          Entry(invalid[i].name, Managed, true, Some(rules.message(invalid[i].reason))))
  }

  function ValidEntries(valid: seq<Target>): (entries: seq<Entry>)
    ensures |entries| == |valid| && forall i :: 0 <= i < |valid| ==>
              entries[i] == Entry(valid[i].name, valid[i].mode, false, None)
  {
    seq(|valid|, i requires 0 <= i < |valid| => Entry(valid[i].name, valid[i].mode, false, None))
  }

  /** Nothing but array-level rejections. */
  predicate RootRejected(p: Parsed) {
    p.valid == [] && forall i :: 0 <= i < |p.invalid| ==> p.invalid[i].name == "<root>"
  }

  predicate Oversized(raw: RawEvent, rules: Rules) {
    raw.payloadBytes > rules.settings.payloadSizeLimitBytes
  }

  /** The INSERT statements with which `schedule_new_deliveries` schedules one event. */
  function Plan(raw: RawEvent, rules: Rules): seq<seq<Entry>> {
    if Oversized(raw, rules) then [DeadEntries(ExtractNames(raw.callbacks), rules.message(PayloadTooLarge))]
    else
      var p := ParseAll(raw.callbacks, rules);
      if RootRejected(p) then
        if raw.callbacks.Arr? then
          [DeadEntries(ExtractNames(raw.callbacks),
                       if p.invalid != [] then rules.message(p.invalid[0].reason)
                       else "invalid_callback: unspecified array-level rejection")]
        else []
      else
        (if p.valid != [] then [ValidEntries(p.valid)] else []) +
        (if p.invalid != [] then [InvalidEntries(p.invalid, rules)] else [])
  }

  /** No statement that schedules a stored event is empty. */
  lemma NoEmptyStatement(raw: RawEvent, rules: Rules, k: nat)
    requires Stored(raw) && k < |Plan(raw, rules)|
    ensures Plan(raw, rules)[k] != []
  {
    assert |ExtractNames(raw.callbacks)| == |raw.callbacks.items|;
  }

  function NameSet(callbacks: Json): set<string> {
    if !callbacks.Arr? then {}
    else set i | 0 <= i < |callbacks.items| && NameOf(callbacks.items[i]).Some? :: NameOf(callbacks.items[i]).value
  }

  function ReadingOf(raw: RawEvent, name: string, rules: Rules, cast: Cast): Reading {
    SweepLookup(raw.callbacks, name, rules.settings.maxCompletionCycles, cast)
  }

  function Interpret(raw: RawEvent, rules: Rules, cast: Cast): Event {
    var names := NameSet(raw.callbacks);
    Event(raw.id, Plan(raw, rules),
          map n | n in names && ValidateNamed(raw.callbacks, n, rules).Ok? ::
              ValidateNamed(raw.callbacks, n, rules).value,
          map n | n in names && ReadingOf(raw, n, rules, cast).Reads? :: ReadingOf(raw, n, rules, cast).hung,
          set n | n in names && ReadingOf(raw, n, rules, cast).Fails?)
  }

  /** The machine's events are the stored ones. */
  ghost predicate FromStore(s: State, raws: map<nat, RawEvent>, rules: Rules, cast: Cast) {
    s.events.Keys == raws.Keys && forall e :: e in raws ==> s.events[e] == Interpret(raws[e], rules, cast)
  }

  lemma NamedIsListed(callbacks: Json, n: string, rules: Rules)
    requires ValidateNamed(callbacks, n, rules).Ok?
    ensures n in NameSet(callbacks)
  {
    var i := FindName(callbacks.items, n).value;
    assert NameOf(callbacks.items[i]) == Some(n);
  }

  /** The modes scheduling and dispatch use for a name are the same. */
  lemma SameMode(callbacks: Json, t: Target, rules: Rules)
    requires t in ParseAll(callbacks, rules).valid && ValidateNamed(callbacks, t.name, rules).Ok?
    ensures ValidateNamed(callbacks, t.name, rules).value == t
  {
    DispatchAgrees(callbacks, t.name, rules);
    var items := callbacks.items;
    var valid := ParseItems(items, |items|, rules).valid;
    NothingLost(items, |items|, rules);
    var u := ValidateNamed(callbacks, t.name, rules).value;
    var i :| 0 <= i < |valid| && valid[i] == t;
    var j :| 0 <= j < |valid| && valid[j] == u;
    assert i == j;
  }

  /** Every event the parsers produce meets the protocol's assumptions. */
  lemma InterpretWellMade(raw: RawEvent, rules: Rules, cast: Cast)
    requires Bounded(rules.settings)
    ensures WellMade(Interpret(raw, rules, cast))
  {
    var e := Interpret(raw, rules, cast);
    forall n | n in e.targets ensures e.targets[n].maxAttempts >= 1 {
      var i := FindName(raw.callbacks.items, n).value;
      TargetWithinLimits(raw.callbacks.items[i], i, rules);
    }
    forall k, j | 0 <= k < |e.plan| && 0 <= j < |e.plan[k]| && !e.plan[k][j].dead
      ensures k == 0 && (e.plan[k][j].name in e.targets ==> e.targets[e.plan[k][j].name].mode == e.plan[k][j].mode)
    {
      var p := ParseAll(raw.callbacks, rules);
      assert e.plan[k] == ValidEntries(p.valid) && k == 0;
      if p.valid[j].name in e.targets { SameMode(raw.callbacks, p.valid[j], rules); }
    }
    forall k, j | 0 <= k < |e.plan| && 0 <= j < |e.plan[k]| && e.plan[k][j].dead ensures e.plan[k][j].mode.Managed? {
      DeadIsManaged(raw, rules, k, j);
    }
  }

  lemma DeadIsManaged(raw: RawEvent, rules: Rules, k: nat, j: nat)
    requires k < |Plan(raw, rules)| && j < |Plan(raw, rules)[k]| && Plan(raw, rules)[k][j].dead
    ensures Plan(raw, rules)[k][j].mode.Managed?
  {
  }

  /** Every element of a stored event's array gets a row, under its name or its position. */
  lemma EveryCallbackReported(raw: RawEvent, rules: Rules, cast: Cast, i: nat)
    requires Stored(raw) && i < |raw.callbacks.items|
    ensures Cursor.Reported(Interpret(raw, rules, cast), LabelOf(raw.callbacks.items, i))
  {
    var items, p := raw.callbacks.items, ParseAll(raw.callbacks, rules);
    var plan: seq<seq<Entry>> := Plan(raw, rules);
    var name := LabelOf(items, i);
    if Oversized(raw, rules) || RootRejected(p) {
      assert ExtractNames(raw.callbacks)[i] == name;
      assert plan[0][i].name == name;
    } else {
      assert |items| <= rules.settings.maxCallbacksPerEvent;
      EveryLabelReported(items, |items|, rules, i);
      if j :| 0 <= j < |p.valid| && p.valid[j].name == name {
        assert plan[0] == ValidEntries(p.valid) && plan[0][j].name == name;
      } else {
        var j :| 0 <= j < |p.invalid| && p.invalid[j].name == name;
        assert plan[|plan| - 1] == InvalidEntries(p.invalid, rules) && plan[|plan| - 1][j].name == name;
      }
    }
  }

  // ---- rows inserted alive ---------------------------------------------------------------------------

  /** Only a valid callback of an event that is not oversized is inserted alive. */
  lemma LiveEntryIsValid(raw: RawEvent, rules: Rules, cast: Cast, name: string, mode: Mode)
    requires Cursor.LiveEntry(Interpret(raw, rules, cast), name, mode)
    ensures !Oversized(raw, rules) && name in NameSet(raw.callbacks)
    ensures exists t :: t in ParseAll(raw.callbacks, rules).valid && t.name == name && t.mode == mode
  {
    var plan: seq<seq<Entry>> := Plan(raw, rules);
    var k, j :| 0 <= k < |plan| && 0 <= j < |plan[k]| && plan[k][j] == Entry(name, mode, false, plan[k][j].error);
    var valid := ParseAll(raw.callbacks, rules).valid;
    assert plan[k] == ValidEntries(valid);
    ValidIsListed(raw.callbacks, valid[j], rules);
  }

  lemma ValidIsListed(callbacks: Json, t: Target, rules: Rules)
    requires t in ParseAll(callbacks, rules).valid
    ensures t.name in NameSet(callbacks)
  {
    var items := callbacks.items;
    ValidExactly(items, |items|, t, rules);
    var i: nat :| i < |items| && FirstValid(items, i, t, rules);
    ParseOneSpec(items[i], i, rules);
    assert NameOf(items[i]) == Some(t.name);
  }

  /** An external row carries a name that its event lists. */
  lemma ExternalIsListed(s: State, raws: map<nat, RawEvent>, rules: Rules, cast: Cast, id: nat)
    requires Attainable(s) && FromStore(s, raws, rules, cast) && id in s.rows && s.rows[id].mode.External?
    ensures id in s.ensured && s.rows[id].event in raws && s.rows[id].name in NameSet(raws[s.rows[id].event].callbacks)
  {
    AttainableInv(s);
    var r := s.rows[id];
    assert r.event in s.events && s.events[r.event] == Interpret(raws[r.event], rules, cast);
    LiveEntryIsValid(raws[r.event], rules, cast, r.name, r.mode);
  }

  /** The rows of an oversized event are dead letters, untouched by any task, until an operator retries them. */
  lemma OversizedStaysDead(s: State, raw: RawEvent, rules: Rules, cast: Cast, id: nat)
    requires Attainable(s) && id in s.rows && id !in s.retried && s.rows[id].event in s.events
    requires s.events[s.rows[id].event] == Interpret(raw, rules, cast) && Oversized(raw, rules)
    ensures s.rows[id].deadLetter && TasksOn(s, id) == {}
  {
    AttainableInv(s);
    if id in s.ensured {
      LiveEntryIsValid(raw, rules, cast, s.rows[id].name, s.rows[id].mode);
    }
    DeadOnArrival(s, id);
  }

  // ---- stuck rows, exactly -----------------------------------------------------------------

  lemma ReadsAsStored(s: State, raws: map<nat, RawEvent>, rules: Rules, cast: Cast, id: nat)
    requires Attainable(s) && FromStore(s, raws, rules, cast) && id in s.rows && s.rows[id].mode.External?
    ensures s.rows[id].event in raws
    ensures HungOf(s, id).Some? <==> Readable(raws[s.rows[id].event].callbacks, s.rows[id].name, cast)
    ensures Breaks(s, id) <==>
              Waiting(s.rows[id]) && Unreadable(raws[s.rows[id].event].callbacks, s.rows[id].name, cast)
  {
    ExternalIsListed(s, raws, rules, cast, id);
    var raw := raws[s.rows[id].event];
    assert s.events[s.rows[id].event] == Interpret(raw, rules, cast);
    ReadingExactly(raw.callbacks, s.rows[id].name, rules.settings.maxCompletionCycles, cast);
  }

  /** No row that waits for the sweep makes it fail. */
  ghost predicate NoneUnreadable(s: State, raws: map<nat, RawEvent>, cast: Cast) {
    forall j :: j in s.rows && s.rows[j].mode.External? && Waiting(s.rows[j]) && s.rows[j].event in raws ==>
      !Unreadable(raws[s.rows[j].event].callbacks, s.rows[j].name, cast)
  }

  /** A delivered row of `ensure_deliveries` is picked up again exactly if the first stored element with
      its name text has limits that cast, and no other waiting row makes a cast fail. */
  lemma DeliveredExactly(s: State, raws: map<nat, RawEvent>, rules: Rules, cast: Cast, id: nat)
    requires Reachable(s) && FromStore(s, raws, rules, cast) && id in s.rows && id in s.ensured && Waiting(s.rows[id])
    ensures s.rows[id].event in raws
    ensures WillBePickedUp(s, id) <==>
              Readable(raws[s.rows[id].event].callbacks, s.rows[id].name, cast) && NoneUnreadable(s, raws, cast)
  {
    ReachableInv(s);
    NoStuckRows(s, id);
    ReadsAsStored(s, raws, rules, cast, id);
    SweepRunsExactly(s, raws, rules, cast);
  }

  lemma SweepRunsExactly(s: State, raws: map<nat, RawEvent>, rules: Rules, cast: Cast)
    requires Attainable(s) && FromStore(s, raws, rules, cast)
    ensures SweepRuns(s) <==> NoneUnreadable(s, raws, cast)
  {
    forall j | j in s.rows && s.rows[j].mode.External?
      ensures s.rows[j].event in raws
      ensures Breaks(s, j) <==>
                Waiting(s.rows[j]) && Unreadable(raws[s.rows[j].event].callbacks, s.rows[j].name, cast)
    {
      ReadsAsStored(s, raws, rules, cast, j);
    }
  }

  predicate Shadowed(callbacks: Json, name: string) {
    callbacks.Arr? && FindName(callbacks.items, name).Some? &&
    exists j :: 0 <= j < FindName(callbacks.items, name).value && BooleanNamed(callbacks.items[j], name)
  }

  /** What dispatch accepts and no boolean shadows, the sweep can read. */
  lemma UnshadowedIsReadable(callbacks: Json, name: string, rules: Rules, cast: Cast)
    requires CastOk(cast) && ValidateNamed(callbacks, name, rules).Ok? && !Shadowed(callbacks, name)
    requires ValidateNamed(callbacks, name, rules).value.mode.External?
    ensures Readable(callbacks, name, cast) && !Unreadable(callbacks, name, cast)
  {
    var i := FindName(callbacks.items, name).value;
    ParseOneSpec(callbacks.items[i], i, rules);
    SweepAgrees(callbacks, name, rules, cast);
    ReadingExactly(callbacks, name, rules.settings.maxCompletionCycles, cast);
  }

  /** So while no delivered callback is shadowed, no live row of `ensure_deliveries` is stuck. */
  lemma NoStuckDelivery(s: State, raws: map<nat, RawEvent>, rules: Rules, cast: Cast, id: nat)
    requires CastOk(cast) && Reachable(s) && FromStore(s, raws, rules, cast)
    requires id in s.rows && id in s.ensured && Live(s.rows[id])
    requires forall j :: j in s.rows && s.rows[j].mode.External? && Waiting(s.rows[j]) && s.rows[j].event in raws ==>
               !Shadowed(raws[s.rows[j].event].callbacks, s.rows[j].name)
    ensures WillBePickedUp(s, id)
  {
    ReachableInv(s);
    forall j | j in s.rows && s.rows[j].mode.External? && Waiting(s.rows[j]) && s.rows[j].event in raws
      ensures var raw := raws[s.rows[j].event];
              Readable(raw.callbacks, s.rows[j].name, cast) && !Unreadable(raw.callbacks, s.rows[j].name, cast)
    {
      WaitingIsReadable(s, raws, rules, cast, j);
    }
    NoStuckRows(s, id);
    if Waiting(s.rows[id]) { DeliveredExactly(s, raws, rules, cast, id); }
  }

  lemma WaitingIsReadable(s: State, raws: map<nat, RawEvent>, rules: Rules, cast: Cast, j: nat)
    requires CastOk(cast) && Reachable(s) && FromStore(s, raws, rules, cast)
    requires j in s.rows && s.rows[j].mode.External? && Waiting(s.rows[j]) && s.rows[j].event in raws
    requires !Shadowed(raws[s.rows[j].event].callbacks, s.rows[j].name)
    ensures var raw := raws[s.rows[j].event];
            Readable(raw.callbacks, s.rows[j].name, cast) && !Unreadable(raw.callbacks, s.rows[j].name, cast)
  {
    ReachableInv(s);
    ExternalIsListed(s, raws, rules, cast, j);
    NoStuckRows(s, j);
    var raw := raws[s.rows[j].event];
    assert s.events[s.rows[j].event] == Interpret(raw, rules, cast);
    UnshadowedIsReadable(raw.callbacks, s.rows[j].name, rules, cast);
  }

  // ---- the target's own limits --------------------------------------------------------------------------

  /** Unless a boolean shadows the callback, its own limits bound the locks. */
  lemma BoundedByTarget(s: State, raw: RawEvent, rules: Rules, cast: Cast, id: nat)
    requires CastOk(cast) && Bounded(rules.settings) && Reachable(s) && id in s.rows && id !in s.retried
    requires s.rows[id].event in s.events && s.events[s.rows[id].event] == Interpret(raw, rules, cast)
    requires ValidateNamed(raw.callbacks, s.rows[id].name, rules).Ok? && !Shadowed(raw.callbacks, s.rows[id].name)
    ensures var t := ValidateNamed(raw.callbacks, s.rows[id].name, rules).value;
            |Attempts.LocksOf(s.tasks, id)| <= t.maxCycles * t.maxAttempts + |Attempts.Excused(s.tasks, id)|
  {
    var name := s.rows[id].name;
    var t := ValidateNamed(raw.callbacks, name, rules).value;
    NamedIsListed(raw.callbacks, name, rules);
    SweepAgrees(raw.callbacks, name, rules, cast);
    var i := FindName(raw.callbacks.items, name).value;
    TargetWithinLimits(raw.callbacks.items[i], i, rules);
    BoundedLocks(s, id);
    Product(Attempts.MaxCycles(s, id), t.maxCycles, t.maxAttempts);
  }

  lemma Product(a: nat, b: nat, c: nat)
    requires a <= b
    ensures a * c <= b * c
  {
    assert (b - a) * c >= 0;
  }
}
