/** Statistics: what the counts add up to. */
module Statistics {
  import opened Basics
  import opened Table

  /** The FILTER clauses, and deliveries that are done. */
  datatype Kind = PendingManaged | PendingExternal | AwaitingCompletion | DeadLettered | Done

  predicate Is(r: Row, kind: Kind) {
    match kind
    case PendingManaged => r.mode.Managed? && r.dispatchedAt.None? && Live(r)
    case PendingExternal => r.mode.External? && r.dispatchedAt.None? && Live(r)
    case AwaitingCompletion => r.mode.External? && r.dispatchedAt.Some? && Live(r)
    case DeadLettered => r.deadLetter
    case Done => r.processedAt.Some? && !r.deadLetter
  }

  /** WHERE clause of `deliveries_pending`. */
  predicate Pending(r: Row) {
    r.dispatchedAt.None? && Live(r)
  }

  datatype CallbackStats = CallbackStats(pendingManaged: nat, pendingExternal: nat, awaitingCompletion: nat,
                                         deadLettered: nat)

  datatype Stats = Stats(
    eventsTotal: nat,
    pending: nat,
    awaitingCompletion: nat,
    deadLettered: nat,
    oldestPendingAge: Option<real>,
    callbacks: map<string, CallbackStats>)

  function Of(rows: map<nat, Row>, kind: Kind): set<nat> {
    set id | id in rows && Is(rows[id], kind)
  }

  function Under(rows: map<nat, Row>, kind: Kind, name: string): set<nat> {
    set id | id in rows && rows[id].name == name && Is(rows[id], kind)
  }

  function PendingIds(rows: map<nat, Row>): set<nat> {
    set id | id in rows && Pending(rows[id])
  }

  function PendingEvents(rows: map<nat, Row>): set<nat> {
    set id | id in PendingIds(rows) :: rows[id].event
  }

  function Names(rows: map<nat, Row>): set<string> {
    set id | id in rows :: rows[id].name
  }

  /** One group of GROUP BY callback_name. */
  function Group(rows: map<nat, Row>, name: string): CallbackStats {
    CallbackStats(|Under(rows, PendingManaged, name)|, |Under(rows, PendingExternal, name)|,
                  |Under(rows, AwaitingCompletion, name)|, |Under(rows, DeadLettered, name)|)
  }

  // ---- per-callback counts sum to the totals ---------------------------------------------------------

  function CountOf(s: CallbackStats, kind: Kind): nat {
    match kind
    case PendingManaged => s.pendingManaged
    case PendingExternal => s.pendingExternal
    case AwaitingCompletion => s.awaitingCompletion
    case DeadLettered => s.deadLettered
    case Done => 0
  }

  ghost function Sum(callbacks: map<string, CallbackStats>, names: set<string>, kind: Kind): nat
    requires names <= callbacks.Keys
  {
    if names == {} then 0
    else
      var n :| n in names;
      CountOf(callbacks[n], kind) + Sum(callbacks, names - {n}, kind)
  }

  ghost function Among(rows: map<nat, Row>, kind: Kind, names: set<string>): set<nat> {
    set id | id in rows && rows[id].name in names && Is(rows[id], kind)
  }

  lemma AmongSplit(rows: map<nat, Row>, kind: Kind, names: set<string>, n: string)
    requires n in names
    ensures |Among(rows, kind, names)| == |Among(rows, kind, names - {n})| + |Under(rows, kind, n)|
  {
    var rest := Among(rows, kind, names - {n});
    assert Among(rows, kind, names) == rest + Under(rows, kind, n);
    assert rest !! Under(rows, kind, n);
  }

  lemma {:induction false} SumIsCount(rows: map<nat, Row>, callbacks: map<string, CallbackStats>, names: set<string>,
                                      kind: Kind)
    requires names <= callbacks.Keys && forall n :: n in names ==> CountOf(callbacks[n], kind) == |Under(rows, kind, n)|
    ensures Sum(callbacks, names, kind) == |Among(rows, kind, names)|
    decreases |names|
  {
    if names == {} {
      assert Among(rows, kind, names) == {};
    } else {
      var n :| n in names && Sum(callbacks, names, kind) ==
          CountOf(callbacks[n], kind) + Sum(callbacks, names - {n}, kind);
      SumIsCount(rows, callbacks, names - {n}, kind);
      AmongSplit(rows, kind, names, n);
    }
  }

  /** On one snapshot the groups add up to the totals. */
  lemma GroupsSumToTotals(rows: map<nat, Row>, callbacks: map<string, CallbackStats>)
    requires callbacks == map n | n in Names(rows) :: Group(rows, n)
    ensures Sum(callbacks, callbacks.Keys, PendingManaged) + Sum(callbacks, callbacks.Keys, PendingExternal) ==
              |PendingIds(rows)|
    ensures Sum(callbacks, callbacks.Keys, AwaitingCompletion) == |Of(rows, AwaitingCompletion)|
    ensures Sum(callbacks, callbacks.Keys, DeadLettered) == |Of(rows, DeadLettered)|
  {
    EveryNameCounts(rows, callbacks, PendingManaged);
    EveryNameCounts(rows, callbacks, PendingExternal);
    EveryNameCounts(rows, callbacks, AwaitingCompletion);
    EveryNameCounts(rows, callbacks, DeadLettered);
    PendingSplit(rows);
  }

  lemma PendingSplit(rows: map<nat, Row>)
    ensures |PendingIds(rows)| == |Of(rows, PendingManaged)| + |Of(rows, PendingExternal)|
  {
    var managed, external := Of(rows, PendingManaged), Of(rows, PendingExternal);
    assert PendingIds(rows) == managed + external && managed !! external;
  }

  lemma GroupCounts(rows: map<nat, Row>, n: string, kind: Kind)
    requires !kind.Done?
    ensures CountOf(Group(rows, n), kind) == |Under(rows, kind, n)|
  {
  }

  lemma EveryNameCounts(rows: map<nat, Row>, callbacks: map<string, CallbackStats>, kind: Kind)
    requires callbacks == map n | n in Names(rows) :: Group(rows, n)
    requires !kind.Done?
    ensures Sum(callbacks, callbacks.Keys, kind) == |Of(rows, kind)|
  {
    forall n | n in callbacks
      ensures CountOf(callbacks[n], kind) == |Under(rows, kind, n)|
    {
      GroupCounts(rows, n, kind);
    }
    SumIsCount(rows, callbacks, callbacks.Keys, kind);
    assert Among(rows, kind, callbacks.Keys) == Of(rows, kind);
  }

  // ---- the kinds partition the rows --------------------------------------------------------------------

  /** A row is of exactly one kind, unless it is live, dispatched and managed: then of none. */
  lemma OneKindExactly(r: Row, kind: Kind, other: Kind)
    ensures Is(r, kind) && Is(r, other) ==> kind == other
    ensures (exists k :: Is(r, k)) <==> !(Live(r) && r.dispatchedAt.Some? && r.mode.Managed?)
  {
    if !(Live(r) && r.dispatchedAt.Some? && r.mode.Managed?) {
      var k := if r.deadLetter then DeadLettered else if r.processedAt.Some? then Done
               else if r.dispatchedAt.Some? then AwaitingCompletion
               else if r.mode.Managed? then PendingManaged else PendingExternal;
      assert Is(r, k);
    }
  }

  lemma KindsAddUp(rows: map<nat, Row>)
    requires forall id :: id in rows ==> exists k :: Is(rows[id], k)
    ensures |rows| == |PendingIds(rows)| + |Of(rows, AwaitingCompletion)| + |Of(rows, DeadLettered)| + |Of(rows, Done)|
  {
    var p, a, d, f := PendingIds(rows), Of(rows, AwaitingCompletion), Of(rows, DeadLettered), Of(rows, Done);
    forall id | id in rows ensures id in p + a + d + f { var k :| Is(rows[id], k); }
    assert rows.Keys == p + a + d + f;
    assert p !! a && (p + a) !! d && (p + a + d) !! f;
  }

  // ---- gauges ---------------------------------------------------------------------------------------------

  datatype Gauge = Gauge(pendingManaged: nat, pendingExternal: nat, awaitingCompletion: nat)

  const ZERO := Gauge(0, 0, 0)

  function GaugeOf(s: CallbackStats): Gauge {
    Gauge(s.pendingManaged, s.pendingExternal, s.awaitingCompletion)
  }

  /** A tick's `fetch_stats`, or None if it failed. */
  type Fetch = Option<Stats>

  /** The last successful fetch. */
  function LastOk(history: seq<Fetch>): Fetch {
    if history == [] then None
    else
      var last := history[|history| - 1];
      if last.Some? then last else LastOk(history[..|history| - 1])
  }

  function LastCallbacks(history: seq<Fetch>): map<string, CallbackStats> {
    if LastOk(history).Some? then LastOk(history).value.callbacks else map[]
  }

  function Seen(history: seq<Fetch>): set<string> {
    if history == [] then {}
    else
      var last := history[|history| - 1];
      Seen(history[..|history| - 1]) + if last.Some? then last.value.callbacks.Keys else {}
  }

  /** Every callback ever seen shows its last successful statistics, or zero if it was absent there. */
  function Expected(history: seq<Fetch>): map<string, Gauge> {
    map cb | cb in Seen(history) :: if cb in LastCallbacks(history) then GaugeOf(LastCallbacks(history)[cb]) else ZERO
  }

  lemma {:induction false} LastIsSeen(history: seq<Fetch>)
    ensures LastCallbacks(history).Keys <= Seen(history)
  {
    if history != [] { LastIsSeen(history[..|history| - 1]); }
  }

  /** What a successful tick leaves is what the longer history calls for. */
  lemma TickShows(history: seq<Fetch>, stats: Stats, before: map<string, Gauge>, after: map<string, Gauge>)
    requires before == Expected(history)
    requires after.Keys == before.Keys + stats.callbacks.Keys + LastCallbacks(history).Keys
    requires forall cb :: cb in after && cb in stats.callbacks ==> after[cb] == GaugeOf(stats.callbacks[cb])
    requires forall cb :: cb in after && cb !in stats.callbacks && cb in LastCallbacks(history) ==> after[cb] == ZERO
    requires forall cb :: cb in after && cb !in stats.callbacks && cb !in LastCallbacks(history) ==>
              after[cb] == before[cb]
    ensures after == Expected(history + [Some(stats)])
  {
    var longer := history + [Some(stats)];
    assert longer[..|longer| - 1] == history && LastCallbacks(longer) == stats.callbacks;
    LastIsSeen(history);
    assert after.Keys == Seen(longer);
  }

  /** A failed tick calls for no change. */
  lemma FailedTick(history: seq<Fetch>)
    ensures LastOk(history + [None]) == LastOk(history) && Expected(history + [None]) == Expected(history)
  {
    var longer := history + [None];
    assert longer[..|longer| - 1] == history;
    assert Seen(longer) == Seen(history);
  }

  /** The sampler's loop state: the exported gauges, the lag (None is NaN) and the callbacks of the previous tick. */
  class Sampler {
    var gauges: map<string, Gauge>
    var lag: Option<real>
    var lastCallbacks: set<string>
    ghost var history: seq<Fetch>

    ghost predicate Valid()
      reads this
    {
      && gauges == Expected(history) && lastCallbacks == LastCallbacks(history).Keys
      && (LastOk(history).Some? ==> lag == LastOk(history).value.oldestPendingAge)
    }

    constructor ()
      ensures Valid() && history == []
    {
      gauges, lag, lastCallbacks, history := map[], None, {}, [];
    }

    method Tick(fetched: Fetch)
      requires Valid()
      modifies this
      ensures Valid() && history == old(history) + [fetched]
    {
      if fetched.None? {
        FailedTick(history);
        history := history + [fetched];
        return;
      }
      var callbacks := fetched.value.callbacks;
      var table := Publish(gauges, callbacks);
      table := ZeroOut(table, lastCallbacks - callbacks.Keys);
      TickShows(history, fetched.value, gauges, table);
      ghost var longer := history + [fetched];
      assert LastOk(longer) == fetched;
      gauges, lag, lastCallbacks, history := table, fetched.value.oldestPendingAge, callbacks.Keys, longer;
    }

    /** The loop over the statistics. */
    static method Publish(before: map<string, Gauge>, callbacks: map<string, CallbackStats>)
      returns (after: map<string, Gauge>)
      ensures after.Keys == before.Keys + callbacks.Keys
      ensures forall cb :: cb in after ==> after[cb] == if cb in callbacks then GaugeOf(callbacks[cb]) else before[cb]
    {
      after := before;
      var left := callbacks.Keys;
      while left != {}
        invariant left <= callbacks.Keys && after.Keys == before.Keys + (callbacks.Keys - left)
        invariant forall cb :: cb in after ==>
                    after[cb] == if cb in callbacks.Keys - left then GaugeOf(callbacks[cb]) else before[cb]
        decreases left
      {
        var cb :| cb in left;
        after := after[cb := GaugeOf(callbacks[cb])];
        left := left - {cb};
      }
    }

    /** The loop over the callbacks that disappeared. */
    static method ZeroOut(before: map<string, Gauge>, stale: set<string>) returns (after: map<string, Gauge>)
      ensures after.Keys == before.Keys + stale
      ensures forall cb :: cb in after ==> after[cb] == if cb in stale then ZERO else before[cb]
    {
      after := before;
      var left := stale;
      while left != {}
        invariant left <= stale && after.Keys == before.Keys + (stale - left)
        invariant forall cb :: cb in after ==> after[cb] == if cb in stale - left then ZERO else before[cb]
        decreases left
      {
        var cb :| cb in left;
        after := after[cb := ZERO];
        left := left - {cb};
      }
    }
  }
}

/** Conservation in every reachable state. */
module Conservation {
  import opened Basics
  import opened Protocol
  import opened Progress
  import opened Cursor
  import opened Runs
  import opened Statistics

  /** No reachable row is of that sort, unless an operator retried one that had been recorded as invalid. */
  lemma ReachableKind(s: State, id: nat)
    requires Reachable(s) && id in s.rows && (id in s.ensured || id !in s.retried)
    ensures exists k :: Is(s.rows[id], k)
  {
    ReachableInv(s);
    var r := s.rows[id];
    OneKindExactly(r, Done, Done);
    if id !in s.ensured {
      assert Stillborn(s, id);
    } else {
      if Spec(s, id).Some? { EnsuredMode(s, id); }
      assert Followed(s, id) && Tracked(s, id);
    }
  }

  /** Pending, awaiting, dead-lettered and done deliveries add up to all deliveries. */
  lemma AddsUp(s: State)
    requires Reachable(s) && forall id :: id in s.rows ==> id in s.ensured || id !in s.retried
    ensures |s.rows| == |PendingIds(s.rows)| + |Of(s.rows, AwaitingCompletion)| +
                        |Of(s.rows, DeadLettered)| + |Of(s.rows, Done)|
  {
    forall id | id in s.rows ensures exists k :: Is(s.rows[id], k) { ReachableKind(s, id); }
    KindsAddUp(s.rows);
  }
}
