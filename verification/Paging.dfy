/** Keyset paging over the admin listings. */
module Paging {
  import opened Basics
  import opened Ordered
  import opened Table

  // ---- the listings ------------------------------------------------------------------------------

  predicate Named(r: Row, filter: Option<string>) {
    filter.None? || r.name == filter.value
  }

  function DeadLetters(rows: map<nat, Row>, filter: Option<string>): set<nat> {
    set id | id in rows && rows[id].deadLetter && Named(rows[id], filter)
  }

  function ExternalPending(rows: map<nat, Row>, filter: Option<string>, olderThan: Option<real>, now: Time): set<nat> {
    set id | id in rows && Named(rows[id], filter) && Overdue(rows[id], olderThan, now)
  }

  // ---- ORDER BY id DESC LIMIT n -------------------------------------------------------------------

  predicate Decreasing(s: seq<nat>) {
    forall i, j :: 0 <= i < j < |s| ==> s[i] > s[j]
  }

  function Top(ids: set<nat>, n: nat): (s: seq<nat>)
    ensures Decreasing(s) && |s| == Min(n, |ids|)
    ensures forall x :: x in s ==> x in ids
    ensures forall x, y :: x in s && y in ids && y !in s ==> y < x
    decreases n
  {
    if n == 0 || ids == {} then []
    else
      var m := Greatest(ids);
      var rest := Top(ids - {m}, n - 1);
      assert forall i :: 0 <= i < |rest| ==> rest[i] in rest;
      [m] + rest
  }

  // ---- pages --------------------------------------------------------------------------------------

  datatype Page = Page(items: seq<nat>, next: Option<nat>)

  function Clamp(limit: int): (n: nat)
    ensures 1 <= n <= 200
  {
    if limit < 1 then 1 else if limit > 200 then 200 else limit
  }

  function Before(ids: set<nat>, cursor: Option<nat>): set<nat> {
    set id | id in ids && (cursor.None? || id < cursor.value)
  }

  /** One request; `ids` is what matches the listing when it is served. */
  function List(ids: set<nat>, cursor: Option<nat>, limit: int): (page: Page)
    ensures page.next.Some? ==> page.items != [] && (cursor.Some? ==> page.next.value < cursor.value)
  {
    var items := Top(Before(ids, cursor), Clamp(limit));
    assert items != [] ==> items[|items| - 1] in items;
    Page(items, if |items| == Clamp(limit) then Some(items[|items| - 1]) else None)
  }

  /** Follows `next` until it is null. Request `k` finds `matching(k)`. Terminates because cursors fall. */
  function Follow(matching: nat -> set<nat>, k: nat, cursor: Option<nat>, limit: int): seq<nat>
    decreases cursor.None?, if cursor.Some? then cursor.value else 0
  {
    var page := List(matching(k), cursor, limit);
    if page.next.None? then page.items else page.items + Follow(matching, k + 1, page.next, limit)
  }

  lemma {:induction false} TopAll(ids: set<nat>, n: nat)
    requires n >= |ids|
    ensures forall x :: x in ids ==> x in Top(ids, n)
    decreases n
  {
    if n != 0 && ids != {} {
      var m := Greatest(ids);
      TopAll(ids - {m}, n - 1);
    }
  }

  lemma ListSpec(ids: set<nat>, cursor: Option<nat>, limit: int, id: nat)
    ensures var page := List(ids, cursor, limit);
            && Decreasing(page.items)
            && (id in page.items ==> id in Before(ids, cursor) && (page.next.Some? ==> page.next.value <= id))
            && (id in Before(ids, cursor) && id !in page.items ==> page.next.Some? && id < page.next.value)
  {
    var page := List(ids, cursor, limit);
    var items := page.items;
    if page.next.Some? {
      assert items[|items| - 1] in items;
    } else {
      TopAll(Before(ids, cursor), Clamp(limit));
    }
  }

  /** Whatever happens to the table between requests, ids come in descending order: each at most once. */
  lemma {:induction false} AtMostOnce(matching: nat -> set<nat>, k: nat, cursor: Option<nat>, limit: int)
    ensures var all := Follow(matching, k, cursor, limit);
            Decreasing(all) && forall i :: 0 <= i < |all| && cursor.Some? ==> all[i] < cursor.value
    decreases cursor.None?, if cursor.Some? then cursor.value else 0
  {
    var page := List(matching(k), cursor, limit);
    forall i | 0 <= i < |page.items|
      ensures page.items[i] in Before(matching(k), cursor) && (page.next.Some? ==> page.next.value <= page.items[i])
    {
      ListSpec(matching(k), cursor, limit, page.items[i]);
    }
    if page.next.Some? { AtMostOnce(matching, k + 1, page.next, limit); }
  }

  /** A row that matches throughout is returned. */
  lemma {:induction false} AtLeastOnce(matching: nat -> set<nat>, k: nat, cursor: Option<nat>, limit: int, id: nat)
    requires (forall q :: q >= k ==> id in matching(q)) && (cursor.Some? ==> id < cursor.value)
    ensures id in Follow(matching, k, cursor, limit)
    decreases cursor.None?, if cursor.Some? then cursor.value else 0
  {
    var page := List(matching(k), cursor, limit);
    ListSpec(matching(k), cursor, limit, id);
    assert id in Before(matching(k), cursor);
    if id !in page.items { AtLeastOnce(matching, k + 1, page.next, limit, id); }
  }

  /** A row that is returned matched when it was. */
  lemma {:induction false} OnlyMatching(matching: nat -> set<nat>, k: nat, cursor: Option<nat>, limit: int, id: nat)
    requires id in Follow(matching, k, cursor, limit)
    ensures exists q :: q >= k && id in matching(q)
    decreases cursor.None?, if cursor.Some? then cursor.value else 0
  {
    var page := List(matching(k), cursor, limit);
    ListSpec(matching(k), cursor, limit, id);
    if id in page.items { assert id in matching(k); } else { OnlyMatching(matching, k + 1, page.next, limit, id); }
  }

  /** On a table that does not change, following the cursor returns exactly the matching rows,
      in descending order, for any requested limit. */
  lemma ExactListing(ids: set<nat>, limit: int)
    ensures var all := Follow(_ => ids, 0, None, limit); Decreasing(all) && forall id :: id in all <==> id in ids
  {
    var same: nat -> set<nat> := _ => ids;
    AtMostOnce(same, 0, None, limit);
    forall id ensures id in Follow(same, 0, None, limit) <==> id in ids {
      if id in ids { AtLeastOnce(same, 0, None, limit, id); }
      if id in Follow(same, 0, None, limit) { OnlyMatching(same, 0, None, limit, id); }
    }
  }

  /** A row that stays a dead letter while an operator pages is listed exactly once. */
  lemma DeadLetterListed(tables: nat -> map<nat, Row>, filter: Option<string>, limit: int, id: nat)
    requires forall q :: id in tables(q) && tables(q)[id].deadLetter && Named(tables(q)[id], filter)
    ensures var all := Follow(k => DeadLetters(tables(k), filter), 0, None, limit); Decreasing(all) && id in all
  {
    var matching: nat -> set<nat> := k => DeadLetters(tables(k), filter);
    assert forall q :: id in matching(q);
    AtMostOnce(matching, 0, None, limit);
    AtLeastOnce(matching, 0, None, limit, id);
  }

  predicate Overdue(r: Row, olderThan: Option<real>, now: Time) {
    r.mode.External? && r.dispatchedAt.Some? && Live(r) &&
        (olderThan.None? || now - r.dispatchedAt.value > olderThan.value)
  }

  /** A row that stays external-pending and overdue while an operator pages is listed exactly once. */
  lemma ExternalPendingListed(tables: nat -> map<nat, Row>, times: nat -> Time, filter: Option<string>,
                              olderThan: Option<real>, limit: int, id: nat)
    requires forall q :: id in tables(q) && Named(tables(q)[id], filter) && Overdue(tables(q)[id], olderThan, times(q))
    ensures var all := Follow(k => ExternalPending(tables(k), filter, olderThan, times(k)), 0, None, limit);
            Decreasing(all) && id in all
  {
    var matching: nat -> set<nat> := k => ExternalPending(tables(k), filter, olderThan, times(k));
    assert forall q :: id in matching(q);
    AtMostOnce(matching, 0, None, limit);
    AtLeastOnce(matching, 0, None, limit, id);
  }
}
