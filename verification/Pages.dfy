/** Cursor pages, newest first, walked while the table grows. Rows are known by their ids. */
module Pages {
  import opened Common
  import opened Ledger
  import opened LedgerMachine
  import opened LedgerRuns

  datatype Page = Page(items: seq<nat>, nextCursor: Option<nat>, hasMore: bool)

  lemma HasMax(ids: set<nat>) returns (m: nat)
    requires ids != {}
    ensures m in ids && forall k :: k in ids ==> k <= m
  {
    var x :| x in ids;
    m := x;
    assert ids == {x} + (ids - {x});
    if ids - {x} != {} {
      var r := HasMax(ids - {x});
      m := if r < x then x else r;
    }
  }

  function Max(ids: set<nat>): (m: nat)
    requires ids != {}
    ensures m in ids && forall k :: k in ids ==> k <= m
  {
    assert exists m :: m in ids && forall k :: k in ids ==> k <= m by { var m := HasMax(ids); }
    var m :| m in ids && forall k :: k in ids ==> k <= m;
    m
  }

  // ORDER BY id DESC
  function Descending(ids: set<nat>): (r: seq<nat>)
    ensures |r| == |ids|
  {
    if ids == {} then [] else [Max(ids)] + Descending(ids - {Max(ids)})
  }

  function Below(ids: set<nat>, cursor: Option<nat>): set<nat> {
    if cursor.None? then ids else set x | x in ids && x < cursor.value
  }

  function FindPage(ids: set<nat>, cursor: Option<nat>, limit: nat): Page {
    var found := Descending(Below(ids, cursor));
    var rows := if |found| > limit + 1 then found[..limit + 1] else found;
    var hasMore := |rows| > limit;
    var items := if hasMore then rows[..limit] else rows;
    Page(items, if hasMore && items != [] then Some(items[|items| - 1]) else None, hasMore)
  }

  // Newest first, each once.
  ghost predicate Falling(ids: seq<nat>) {
    forall i, j :: 0 <= i < j < |ids| ==> ids[j] < ids[i]
  }

  // A client that follows nextCursor; the table is table(k) when it asks for page k. Whatever the
  // table does in between, the walk ends, and shows no row twice.
  ghost function Walk(table: nat -> set<nat>, k: nat, cursor: Option<nat>, limit: nat): (shown: seq<nat>)
    requires 0 < limit
    ensures Falling(shown) && (cursor.Some? ==> forall x :: x in shown ==> x < cursor.value)
    decreases cursor.None?, if cursor.Some? then cursor.value else 0
  {
    hide FindPage, Descending;
    var page := FindPage(table(k), cursor, limit);
    PageShape(table(k), cursor, limit);
    if page.nextCursor.None? then page.items
    else
      var rest := Walk(table, k + 1, page.nextCursor, limit);
      FallingConcat(page.items, rest, page.nextCursor.value);
      page.items + rest
  }

  // ------------------------------------------------------------------ proofs

  lemma FallingConcat(a: seq<nat>, b: seq<nat>, m: nat)
    requires Falling(a) && Falling(b)
    requires (forall x :: x in a ==> m <= x) && forall x :: x in b ==> x < m
    ensures Falling(a + b) && forall x :: x in a + b <==> x in a || x in b
  {
    forall i, j | 0 <= i < j < |a + b| ensures (a + b)[j] < (a + b)[i] {
      if i < |a| <= j {
        assert a[i] in a && b[j - |a|] in b;
      }
    }
  }

  lemma {:induction false} DescendingFacts(ids: set<nat>)
    ensures forall x :: x in ids <==> x in Descending(ids)
    ensures forall i, j :: 0 <= i < j < |Descending(ids)| ==> Descending(ids)[j] < Descending(ids)[i]
  {
    if ids != {} {
      DescendingFacts(ids - {Max(ids)});
      var d, rest := Descending(ids), Descending(ids - {Max(ids)});
      forall i, j | 0 <= i < j < |d| ensures d[j] < d[i] {
        assert d[j] == rest[j - 1] && d[j] in ids - {Max(ids)};
      }
    }
  }

  // A page shows the newest rows below the cursor, and leaves the walk at the last of them.
  lemma PageShape(ids: set<nat>, cursor: Option<nat>, limit: nat)
    requires 0 < limit
    ensures var page, below := FindPage(ids, cursor, limit), Below(ids, cursor);
      && Falling(page.items) && (forall x :: x in page.items ==> x in below)
      && (page.nextCursor.None? ==> forall x :: x in below ==> x in page.items)
      && (page.nextCursor.Some? ==>
            && page.nextCursor.value in below && page.nextCursor.value in page.items
            && (forall x :: x in page.items ==> page.nextCursor.value <= x)
            && (forall x :: x in below && page.nextCursor.value <= x ==> x in page.items))
  {
    hide Descending, Below;
    var d, page := Descending(Below(ids, cursor)), FindPage(ids, cursor, limit);
    DescendingFacts(Below(ids, cursor));
    if |d| > limit {
      CutPage(d, limit);
      assert page.items == d[..limit] && page.nextCursor == Some(d[limit - 1]);
    } else {
      assert page.items == d;
    }
  }

  // A page of limit rows holds the newest ones below the cursor, that many or all there are; it says
  // there is more exactly when a row is left out, and then points at its own last row.
  lemma PageExactly(ids: set<nat>, cursor: Option<nat>, limit: nat)
    requires 0 < limit
    ensures var page, below := FindPage(ids, cursor, limit), Below(ids, cursor);
      && |page.items| == (if |below| < limit then |below| else limit)
      && page.items <= Descending(below)
      && (page.hasMore <==> exists x :: x in below && x !in page.items)
      && page.nextCursor == if page.hasMore then Some(page.items[limit - 1]) else None
  {
    hide Descending, Below;
    var d, page := Descending(Below(ids, cursor)), FindPage(ids, cursor, limit);
    DescendingFacts(Below(ids, cursor));
    if |d| > limit {
      CutPage(d, limit);
      assert page.items == d[..limit];
      assert d[limit] in d && d[limit] !in d[..limit];
    } else {
      assert page.items == d;
    }
  }

  lemma CutPage(d: seq<nat>, limit: nat)
    requires Falling(d) && 0 < limit < |d|
    ensures d[limit - 1] in d[..limit] && Falling(d[..limit]) && d[..limit + 1][..limit] == d[..limit]
    ensures forall x :: x in d[..limit] ==> x in d && d[limit - 1] <= x
    ensures forall x :: x in d && d[limit - 1] <= x ==> x in d[..limit]
  {
    forall x | x in d && d[limit - 1] <= x ensures x in d[..limit] {
      var i :| 0 <= i < |d| && d[i] == x;
      assert d[..limit][i] == x;
    }
  }

  // A row that is there throughout and below the cursor is shown.
  lemma {:induction false} NothingIsMissed(table: nat -> set<nat>, k: nat, cursor: Option<nat>, limit: nat, x: nat)
    requires 0 < limit && (cursor.Some? ==> x < cursor.value)
    requires forall j :: k <= j ==> x in table(j)
    ensures x in Walk(table, k, cursor, limit)
    decreases cursor.None?, if cursor.Some? then cursor.value else 0
  {
    hide FindPage, Descending;
    var page := FindPage(table(k), cursor, limit);
    PageShape(table(k), cursor, limit);
    assert x in Below(table(k), cursor);
    if page.nextCursor.Some? && x < page.nextCursor.value {
      NothingIsMissed(table, k + 1, page.nextCursor, limit, x);
    }
  }

  // Every page of the walk finds, below its cursor, only rows of the given set.
  ghost predicate NothingLate(table: nat -> set<nat>, k: nat, cursor: Option<nat>, limit: nat, rows: set<nat>)
    requires 0 < limit
    decreases cursor.None?, if cursor.Some? then cursor.value else 0
  {
    hide FindPage, Descending;
    var page := FindPage(table(k), cursor, limit);
    PageShape(table(k), cursor, limit);
    Below(table(k), cursor) <= rows
    && (page.nextCursor.Some? ==> NothingLate(table, k + 1, page.nextCursor, limit, rows))
  }

  ghost predicate Grows(table: nat -> set<nat>) {
    forall j, k :: j <= k ==> table(j) <= table(k)
  }

  lemma {:induction false} OnlyTheseRows(table: nat -> set<nat>, k: nat, cursor: Option<nat>, limit: nat, rows: set<nat>)
    requires 0 < limit && NothingLate(table, k, cursor, limit, rows)
    ensures forall x :: x in Walk(table, k, cursor, limit) ==> x in rows
    decreases cursor.None?, if cursor.Some? then cursor.value else 0
  {
    hide FindPage, Descending;
    var page := FindPage(table(k), cursor, limit);
    PageShape(table(k), cursor, limit);
    if page.nextCursor.Some? {
      OnlyTheseRows(table, k + 1, page.nextCursor, limit, rows);
    }
  }

  lemma {:induction false} LateRowsAreShown(table: nat -> set<nat>, k: nat, cursor: Option<nat>, limit: nat,
                                            rows: set<nat>)
    requires 0 < limit && Grows(table) && forall x :: x in Walk(table, k, cursor, limit) ==> x in rows
    ensures NothingLate(table, k, cursor, limit, rows)
    decreases cursor.None?, if cursor.Some? then cursor.value else 0
  {
    hide FindPage, Descending;
    var page := FindPage(table(k), cursor, limit);
    PageShape(table(k), cursor, limit);
    forall x | x in Below(table(k), cursor) ensures x in rows {
      NothingIsMissed(table, k, cursor, limit, x);
    }
    if page.nextCursor.Some? {
      var rest := Walk(table, k + 1, page.nextCursor, limit);
      assert Walk(table, k, cursor, limit) == page.items + rest;
      LateRowsAreShown(table, k + 1, page.nextCursor, limit, rows);
    }
  }

  // Only one sequence lists given rows newest first.
  lemma {:induction false} FallingIsDescending(shown: seq<nat>, ids: set<nat>)
    requires Falling(shown) && forall x :: x in shown <==> x in ids
    ensures shown == Descending(ids)
    decreases |shown|
  {
    if shown == [] {
      assert ids == {};
    } else {
      var m, rest := shown[0], shown[1..];
      assert m in shown;
      assert Max(ids) == m by {
        var i :| 0 <= i < |shown| && shown[i] == Max(ids);
      }
      assert shown == [m] + rest;
      forall x ensures x in rest <==> x in ids - {m} {
        assert x in shown <==> x == m || x in rest;
        if x in rest {
          var i :| 0 <= i < |rest| && rest[i] == x;
          assert shown[i + 1] == x;
        }
      }
      FallingIsDescending(rest, ids - {m});
    }
  }

  // Rows are only added, wherever their ids fall: no row of the first page's moment is missed, and the
  // walk shows exactly those rows, newest first, exactly when no later row is below the cursor in use.
  lemma WalkExactly(table: nat -> set<nat>, limit: nat)
    requires Grows(table) && 0 < limit
    ensures var shown := Walk(table, 0, None, limit);
      && (forall x :: x in table(0) ==> x in shown)
      && (shown == Descending(table(0)) <==> NothingLate(table, 0, None, limit, table(0)))
  {
    var shown := Walk(table, 0, None, limit);
    forall x | x in table(0) ensures x in shown {
      NothingIsMissed(table, 0, None, limit, x);
    }
    DescendingFacts(table(0));
    if NothingLate(table, 0, None, limit, table(0)) {
      OnlyTheseRows(table, 0, None, limit, table(0));
      FallingIsDescending(shown, table(0));
    }
    if shown == Descending(table(0)) {
      LateRowsAreShown(table, 0, None, limit, table(0));
    }
  }

  // ------------------------------------------------------------------ ids drawn before the commit

  // What may happen to the table from rows on: transactions that have drawn an id and not committed
  // may commit in any order, and every id drawn from now on is at least next.
  ghost predicate Continues(table: nat -> set<nat>, rows: set<nat>, drawn: set<nat>, next: nat) {
    && Grows(table) && table(0) == rows
    && (forall k, x :: x in table(k) && x !in rows ==> x in drawn || next <= x)
  }

  // The walk shows exactly the first page's moment, whatever commits while it goes on, exactly when
  // the first page is the last or no id drawn and not yet committed is below its cursor.
  lemma OpenDrawsExactly(rows: set<nat>, drawn: set<nat>, next: nat, limit: nat)
    requires 0 < limit && rows !! drawn && forall x :: x in rows ==> x < next
    ensures var first := FindPage(rows, None, limit);
      (first.nextCursor.None? || (forall x :: x in drawn ==> first.nextCursor.value < x))
      <==> (forall table: nat -> set<nat> ::
              Continues(table, rows, drawn, next) ==> Walk(table, 0, None, limit) == Descending(rows))
  {
    hide FindPage, Descending;
    var first := FindPage(rows, None, limit);
    PageShape(rows, None, limit);
    if first.nextCursor.None? || (forall x :: x in drawn ==> first.nextCursor.value < x) {
      forall table: nat -> set<nat> | Continues(table, rows, drawn, next)
        ensures Walk(table, 0, None, limit) == Descending(rows)
      {
        if first.nextCursor.Some? {
          NoOpenDrawBelow(table, 1, first.nextCursor, limit, rows, drawn, next);
        }
        WalkExactly(table, limit);
      }
    } else {
      var x :| x in drawn && x <= first.nextCursor.value;
      LateCommit(rows, drawn, next, limit, x);
    }
  }

  lemma {:induction false} NoOpenDrawBelow(table: nat -> set<nat>, k: nat, cursor: Option<nat>, limit: nat,
                                           rows: set<nat>, drawn: set<nat>, next: nat)
    requires 0 < limit && Continues(table, rows, drawn, next) && cursor.Some? && cursor.value in rows
    requires forall x :: x in rows ==> x < next
    requires forall x :: x in drawn ==> cursor.value < x
    ensures NothingLate(table, k, cursor, limit, rows)
    decreases cursor.value
  {
    hide FindPage, Descending;
    var page := FindPage(table(k), cursor, limit);
    PageShape(table(k), cursor, limit);
    if page.nextCursor.Some? {
      assert page.nextCursor.value in Below(table(k), cursor);
      NoOpenDrawBelow(table, k + 1, page.nextCursor, limit, rows, drawn, next);
    }
  }

  // A transaction that commits right after the first page, below its cursor, appears on a later page.
  lemma LateCommit(rows: set<nat>, drawn: set<nat>, next: nat, limit: nat, x: nat)
    requires 0 < limit && rows !! drawn && x in drawn
    requires var first := FindPage(rows, None, limit); first.nextCursor.Some? && x <= first.nextCursor.value
    ensures var table := k => if k == 0 then rows else rows + {x};
      Continues(table, rows, drawn, next) && Walk(table, 0, None, limit) != Descending(rows)
  {
    hide FindPage, Descending;
    var table := k => if k == 0 then rows else rows + {x};
    var first := FindPage(rows, None, limit);
    PageShape(rows, None, limit);
    assert first.nextCursor.value in rows;
    NothingIsMissed(table, 1, first.nextCursor, limit, x);
    assert x in Walk(table, 0, None, limit);
    DescendingFacts(rows);
  }

  // ------------------------------------------------------------------ ids drawn under a lock

  // The table only gains rows that are newer than everything the first page could see.
  ghost predicate OnlyNewer(table: nat -> set<nat>) {
    forall k :: table(0) <= table(k) && forall a, b :: a in table(0) && b in table(k) - table(0) ==> a < b
  }

  lemma {:induction false} NewerIsNeverLate(table: nat -> set<nat>, k: nat, cursor: Option<nat>, limit: nat)
    requires 0 < limit && OnlyNewer(table)
    requires if k == 0 then cursor == None else cursor.Some? && cursor.value in table(0)
    ensures NothingLate(table, k, cursor, limit, table(0))
    decreases cursor.None?, if cursor.Some? then cursor.value else 0
  {
    hide FindPage, Descending;
    var page := FindPage(table(k), cursor, limit);
    PageShape(table(k), cursor, limit);
    forall x | x in Below(table(k), cursor) ensures x in table(0) {
      assert x !in table(k) - table(0) || k == 0;
    }
    if page.nextCursor.Some? {
      assert page.nextCursor.value in Below(table(k), cursor);
      NewerIsNeverLate(table, k + 1, page.nextCursor, limit);
    }
  }

  // Then the walk shows exactly the rows of the first page's moment, newest first, each once.
  lemma NewerRowsDoNotShow(table: nat -> set<nat>, limit: nat)
    requires OnlyNewer(table) && 0 < limit
    ensures Walk(table, 0, None, limit) == Descending(table(0))
  {
    forall x | x in table(0) ensures x in Walk(table, 0, None, limit) {
      NothingIsMissed(table, 0, None, limit, x);
    }
    NewerIsNeverLate(table, 0, None, limit);
    OnlyTheseRows(table, 0, None, limit, table(0));
    FallingIsDescending(Walk(table, 0, None, limit), table(0));
  }

  // ------------------------------------------------------------------ one wallet's entries

  ghost function IdsOf(entries: seq<Entry>, w: nat): set<nat> {
    set e | e in entries && e.walletId == w :: e.id
  }

  // The ids a page query sees after the events have run from s.
  ghost function IdsAfter(s: State, events: seq<Event>, w: nat): set<nat> {
    if Inv(s) then IdsOf(Run(s, events).db.entries, w) else {}
  }

  // Pages over one wallet, each asked for after any further interleaving of the ledger: the wallet
  // lock makes the id order agree with the commit order, so the walk misses and repeats nothing.
  lemma WalletWalk(s: State, between: nat -> seq<Event>, w: nat, limit: nat)
    requires Inv(s) && between(0) == [] && 0 < limit
    ensures var table := k => IdsAfter(s, between(k), w);
      OnlyNewer(table) && Walk(table, 0, None, limit) == Descending(IdsOf(s.db.entries, w))
  {
    var table := k => IdsAfter(s, between(k), w);
    assert table(0) == IdsOf(s.db.entries, w);
    forall k: nat
      ensures table(0) <= table(k)
      ensures forall a, b :: a in table(0) && b in table(k) - table(0) ==> a < b
    {
      var more := Since(s, between(k));
      forall e | e in s.db.entries + more ensures e in s.db.entries || e in more {}
      forall a, b | a in table(0) && b in table(k) - table(0) ensures a < b {
        var older :| older in s.db.entries && older.walletId == w && older.id == a;
        var newer :| newer in s.db.entries + more && newer.walletId == w && newer.id == b;
        assert newer in more;
        LaterEntriesAreNewer(s, between(k), older, newer);
      }
    }
    NewerRowsDoNotShow(table, limit);
  }
}
