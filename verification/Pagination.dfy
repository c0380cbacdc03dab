/** Keyset pagination of `GET /orders` (examples/02-communications/python/order-service/main.py).
    Ids stand in the order of the database; any dense total order would do. The table is
    its rows in the order of the primary key. */
module Pagination {
  import opened Text

  type Id = real

  ghost predicate Ascending(s: seq<Id>) {
    forall i, j :: 0 <= i < j < |s| ==> s[i] < s[j]
  }

  /** How many rows `WHERE id > after` leaves out. */
  function Passed(table: seq<Id>, after: Option<Id>): (n: nat)
    ensures n <= |table|
    ensures after.Some? ==> forall i :: 0 <= i < n ==> table[i] <= after.value
    ensures n < |table| ==> after.None? || table[n] > after.value
    ensures after.None? ==> n == 0
  {
    if table == [] || after.None? || table[0] > after.value then 0 else Passed(table[1..], after) + 1
  }

  /** `SELECT ... WHERE id > after ORDER BY id LIMIT limit` */
  function Fetch(table: seq<Id>, after: Option<Id>, limit: nat): seq<Id> {
    var n := Passed(table, after);
    table[n..if n + limit <= |table| then n + limit else |table|]
  }

  datatype Page = Page(items: seq<Id>, nextCursor: Option<Id>)

  /** `list_orders`. The limit has an upper bound and no lower one: the database refuses a
      negative limit, and with limit 0 the last of no items is asked for. */
  method ListOrders(table: seq<Id>, after: Option<Id>, limit: int) returns (r: Result<Page>)
    ensures r.Ok? <==> 1 <= limit <= 100
    ensures r.Ok? ==> r.value.items == Fetch(table, after, limit)
    ensures r.Ok? ==> (r.value.nextCursor.Some? <==> |r.value.items| == limit)
    ensures r.Ok? && r.value.nextCursor.Some? ==> r.value.nextCursor.value == r.value.items[limit - 1]
  {
    if limit > 100 { return Err("422"); }
    if limit < 0 { return Err("LIMIT must not be negative"); }
    var items := Fetch(table, after, limit);
    if |items| == limit {
      if items == [] { return Err("IndexError"); }
      return Ok(Page(items, Some(items[|items| - 1])));
    }
    r := Ok(Page(items, None));
  }

  /** Rows are only inserted between requests, and from request `quiet` on not even that. */
  ghost predicate Growing(tables: nat -> seq<Id>, quiet: nat) {
    && (forall k: nat :: Ascending(tables(k)))
    && (forall k: nat, x :: x in tables(k) ==> x in tables(k + 1))
    && (forall k: nat :: quiet <= k ==> tables(k) == tables(quiet))
  }

  lemma GrowAt(tables: nat -> seq<Id>, quiet: nat, k: nat)
    requires Growing(tables, quiet)
    ensures Ascending(tables(k)) && (forall x :: x in tables(k) ==> x in tables(k + 1))
    ensures quiet <= k ==> tables(k) == tables(quiet)
  {
  }

  lemma {:induction false} StaysIn(tables: nat -> seq<Id>, quiet: nat, k: nat, x: Id)
    requires Growing(tables, quiet) && x in tables(0)
    ensures x in tables(k)
  {
    hide Growing;
    if 0 < k {
      StaysIn(tables, quiet, k - 1, x);
      GrowAt(tables, quiet, k - 1);
    }
  }

  lemma PassedIs(table: seq<Id>, c: Id, n: nat)
    requires Ascending(table) && n <= |table| && (n > 0 ==> table[n - 1] <= c) && (n < |table| ==> c < table[n])
    ensures Passed(table, Some(c)) == n
  {
  }

  /** A page is what follows the cursor without a gap. */
  lemma PageFollows(table: seq<Id>, after: Option<Id>, limit: nat)
    requires Ascending(table) && 1 <= limit
    ensures var items := Fetch(table, after, limit);
            && Ascending(items)
            && (forall i :: 0 <= i < |items| ==> items[i] in table && (after.Some? ==> after.value < items[i]))
            && (|items| == limit ==> Passed(table, Some(items[limit - 1])) == Passed(table, after) + limit)
  {
    FetchAt(table, after, limit);
    hide Fetch;
    var n := Passed(table, after);
    var items := Fetch(table, after, limit);
    forall i, j | 0 <= i < j < |items| ensures items[i] < items[j] {
      assert items[i] == table[n + i] && items[j] == table[n + j];
    }
    forall i | 0 <= i < |items| ensures items[i] in table && (after.Some? ==> after.value < items[i]) {
      assert items[i] == table[n + i];
      if 0 < i { assert table[n] < table[n + i]; }
    }
    if |items| == limit {
      var last := items[limit - 1];
      assert last == table[n + limit - 1];
      PassedIs(table, last, n + limit);
    }
  }

  lemma FetchAt(table: seq<Id>, after: Option<Id>, limit: nat)
    ensures var items, n := Fetch(table, after, limit), Passed(table, after);
            && |items| == (if n + limit <= |table| then limit else |table| - n)
            && forall i :: 0 <= i < |items| ==> items[i] == table[n + i]
  {
    hide Passed;
  }

  /** Every row beyond the cursor is on the page, or beyond a full page. */
  lemma PageMisses(table: seq<Id>, after: Option<Id>, limit: nat, x: Id)
    requires Ascending(table) && 1 <= limit && x in table && (after.Some? ==> after.value < x)
    ensures var items := Fetch(table, after, limit); x in items || (|items| == limit && items[limit - 1] < x)
  {
    var n := Passed(table, after);
    var items := Fetch(table, after, limit);
    var j :| 0 <= j < |table| && table[j] == x;
    assert n <= j;
    if j < n + |items| {
      assert items[j - n] == x;
    } else {
      assert items[limit - 1] == table[n + limit - 1];
    }
  }

  /** What the client has seen and where it stands. */
  ghost predicate Walked(seen: seq<Id>, cursor: Option<Id>) {
    Ascending(seen) && cursor == if seen == [] then None else Some(seen[|seen| - 1])
  }

  /** Rows from the start that were not seen yet lie beyond the cursor. */
  ghost predicate NoneMissed(first: seq<Id>, seen: seq<Id>, cursor: Option<Id>, more: bool) {
    forall x :: x in first ==> x in seen || (more && (cursor.Some? ==> cursor.value < x))
  }

  lemma WalkOn(tables: nat -> seq<Id>, quiet: nat, k: nat, limit: nat, seen: seq<Id>, cursor: Option<Id>)
    requires Growing(tables, quiet) && 1 <= limit && Walked(seen, cursor) && NoneMissed(tables(0), seen, cursor, true)
    requires forall i :: 0 <= i < |seen| ==> seen[i] in tables(k)
    ensures var items := Fetch(tables(k), cursor, limit);
            var seen' := seen + items;
            var full := |items| == limit;
            && Walked(seen', if full then Some(items[limit - 1])
                             else if seen' == [] then None else Some(seen'[|seen'| - 1]))
            && NoneMissed(tables(0), seen', if full then Some(items[limit - 1]) else None, full)
            && (forall i :: 0 <= i < |seen'| ==> seen'[i] in tables(k + 1))
            && (full ==> Passed(tables(k), Some(items[limit - 1])) == Passed(tables(k), cursor) + limit)
  {
    hide Fetch, Passed, Growing;
    GrowAt(tables, quiet, k);
    var items := Fetch(tables(k), cursor, limit);
    PageFollows(tables(k), cursor, limit);
    forall x | x in tables(0) && x !in seen + items ensures |items| == limit && items[limit - 1] < x {
      StaysIn(tables, quiet, k, x);
      PageMisses(tables(k), cursor, limit, x);
    }
  }

  /** What n full pages hold. */
  function Rows(n: int, limit: int): int {
    n * limit
  }

  /** A client that follows the cursor from the first page to the last, while rows are
      inserted between its requests: what it sees ascends, so nothing twice; it sees every
      row that was there from the start; and it ends, by the rows it has passed. Without
      insertions it sees the table, every row once. */
  method FollowCursor(tables: nat -> seq<Id>, limit: nat, quiet: nat) returns (seen: seq<Id>, pages: nat)
    requires Growing(tables, quiet) && 1 <= limit <= 100
    ensures Ascending(seen)
    ensures forall x :: x in tables(0) ==> x in seen
    ensures forall i :: 0 <= i < |seen| ==> seen[i] in tables(pages)
    ensures 1 <= pages && (quiet < pages ==> Rows(pages - 1 - quiet, limit) <= |tables(quiet)|)
    ensures quiet == 0 ==> seen == tables(0)
  {
    hide Fetch, Passed, NoneMissed, Growing, Rows, Ascending;
    NothingWalked();
    seen, pages := [], 0;
    var cursor: Option<Id> := None;
    var more := true;
    NothingSeen(tables(0));
    OneMore(0, limit);
    while more
      invariant more ==> Walked(seen, cursor)
      invariant Ascending(seen) && forall i :: 0 <= i < |seen| ==> seen[i] in tables(pages)
      invariant NoneMissed(tables(0), seen, cursor, more)
      invariant pages > 0 || more
      invariant more && quiet <= pages ==> Rows(pages - quiet, limit) <= Passed(tables(quiet), cursor)
      invariant !more && quiet < pages ==> Rows(pages - 1 - quiet, limit) <= |tables(quiet)|
      decreases more, if pages < quiet then quiet - pages else 0, |tables(quiet)| - Passed(tables(quiet), cursor)
    {
      WalkOn(tables, quiet, pages, limit, seen, cursor);
      GrowAt(tables, quiet, pages);
      var r := ListOrders(tables(pages), cursor, limit);
      seen := seen + r.value.items;
      more := r.value.nextCursor.Some?;
      cursor := r.value.nextCursor;
      OneMore(pages - quiet, limit);
      pages := pages + 1;
    }
    AllSeen(tables(0), seen, cursor);
    if quiet == 0 {
      GrowAt(tables, quiet, pages);
      GrowAt(tables, quiet, 0);
      AscendingUnique(seen, tables(0));
    }
  }

  lemma OneMore(n: int, limit: int)
    ensures Rows(n + 1, limit) == Rows(n, limit) + limit && Rows(0, limit) == 0
  {
  }

  lemma NothingWalked()
    ensures Ascending([]) && Walked([], None)
  {
  }

  lemma NothingSeen(first: seq<Id>)
    ensures NoneMissed(first, [], None, true) && Passed(first, None) == 0
  {
  }

  lemma AllSeen(first: seq<Id>, seen: seq<Id>, cursor: Option<Id>)
    requires NoneMissed(first, seen, cursor, false)
    ensures forall x :: x in first ==> x in seen
  {
  }

  lemma LastIsMost(s: seq<Id>, x: Id)
    requires Ascending(s) && x in s
    ensures x <= s[|s| - 1] && (x == s[|s| - 1] || x in s[..|s| - 1])
  {
  }

  lemma EmptyBoth(a: seq<Id>, b: seq<Id>)
    requires (forall x :: x in a ==> x in b) && (forall x :: x in b ==> x in a)
    ensures a == [] <==> b == []
  {
    if a != [] {
      var x := a[0];
      assert x in a;
      var i :| 0 <= i < |b| && b[i] == x;
    }
    if b != [] {
      var x := b[0];
      assert x in b;
      var i :| 0 <= i < |a| && a[i] == x;
    }
  }

  /** Ascending lists of the same rows are the same. */
  lemma {:induction false} AscendingUnique(seen: seq<Id>, table: seq<Id>)
    requires Ascending(seen) && Ascending(table)
    requires (forall x :: x in seen ==> x in table) && (forall x :: x in table ==> x in seen)
    ensures seen == table
  {
    hide Ascending;
    EmptyBoth(seen, table);
    if seen != [] {
      var m, n := |seen| - 1, |table| - 1;
      assert seen[m] in seen && table[n] in table;
      LastIsMost(table, seen[m]);
      LastIsMost(seen, table[n]);
      InitWithin(seen, table);
      InitWithin(table, seen);
      InitAscends(seen);
      InitAscends(table);
      AscendingUnique(seen[..m], table[..n]);
      assert seen == seen[..m] + [seen[m]] && table == table[..n] + [table[n]];
    }
  }

  lemma InitAscends(s: seq<Id>)
    requires s != [] && Ascending(s)
    ensures Ascending(s[..|s| - 1])
  {
  }

  lemma InitWithin(a: seq<Id>, b: seq<Id>)
    requires a != [] && b != [] && Ascending(a) && Ascending(b) && a[|a| - 1] == b[|b| - 1]
    requires forall x :: x in a ==> x in b
    ensures var init, rest := a[..|a| - 1], b[..|b| - 1]; forall x :: x in init ==> x in rest
  {
    var init, rest := a[..|a| - 1], b[..|b| - 1];
    forall x | x in init ensures x in rest {
      var j :| 0 <= j < |init| && init[j] == x;
      assert a[j] == x && a[j] < a[|a| - 1];
      LastIsMost(b, x);
    }
  }
}
