/** Checkout: all or nothing, priced as quoted, one purchase per row, and every invariant kept. */
module MarketCheckout {
  import opened Common
  import opened Sums
  import opened Market
  import opened MarketInvariant

  // ------------------------------------------------------------------ rows of one user

  lemma {:induction false} RowsApart(cart: seq<CartRow>, userId: nat)
    requires AllApart(cart)
    ensures AllApart(RowsOf(cart, userId)) && AllApart(OthersRows(cart, userId))
  {
    if cart != [] {
      var n := |cart| - 1;
      RowsApart(cart[..n], userId);
      BeforeLast(cart, RowsOf(cart[..n], userId));
      BeforeLast(cart, OthersRows(cart[..n], userId));
    }
  }

  lemma BeforeLast(cart: seq<CartRow>, rows: seq<CartRow>)
    requires cart != [] && AllApart(cart) && forall row :: row in rows ==> row in cart[..|cart| - 1]
    ensures forall i :: 0 <= i < |rows| ==> Apart(rows[i], cart[|cart| - 1])
  {
    hide Apart;
    forall i | 0 <= i < |rows| ensures Apart(rows[i], cart[|cart| - 1]) {
      assert rows[i] in rows;
    }
  }

  // ------------------------------------------------------------------ the first loop

  // What can be bought right now.
  ghost predicate Buyable(s: State, userId: nat, row: CartRow) {
    && Visible(s, row.listingId) && s.listings[row.listingId].status == PUBLISHED
    && (if s.listings[row.listingId].pricing == PER_RUN
        then row.packId.Some? && SellsPack(s, row.listingId, row.packId.value)
        else !Owns(s.purchases, userId, row.listingId))
  }

  ghost function Unbuyable(s: State, userId: nat, rows: seq<CartRow>): seq<CartRow> {
    if rows == [] then [] else
      var n := |rows| - 1;
      Unbuyable(s, userId, rows[..n]) + (if Buyable(s, userId, rows[n]) then [] else [rows[n]])
  }

  // Why a row cannot be bought.
  ghost predicate Reason(s: State, userId: nat, row: CartRow, code: Code) {
    if !Visible(s, row.listingId) || s.listings[row.listingId].status != PUBLISHED then code == LISTING_NOT_PURCHASABLE
    else if s.listings[row.listingId].pricing == PER_RUN then code == INVALID_RUN_PACK
    else code == ALREADY_OWNED
  }

  ghost predicate Reports(s: State, userId: nat, row: CartRow, f: LineFailure) {
    f.cartItemId == row.id && f.listingId == row.listingId && Reason(s, userId, row, f.reason)
  }

  lemma {:induction false} FailuresReport(s: State, userId: nat, rows: seq<CartRow>, percent: int)
    ensures var failures, bad := Failures(s, userId, rows, percent), Unbuyable(s, userId, rows);
      |failures| == |bad| && forall i :: 0 <= i < |bad| ==> Reports(s, userId, bad[i], failures[i])
    ensures Failures(s, userId, rows, percent) == [] ==>
      forall i :: 0 <= i < |rows| ==> Buyable(s, userId, rows[i])
  {
    if rows != [] {
      FailuresReport(s, userId, rows[..|rows| - 1], percent);
    }
  }

  lemma {:induction false} BuiltInOrder(s: State, userId: nat, rows: seq<CartRow>, percent: int)
    requires Failures(s, userId, rows, percent) == []
    ensures var lines := Built(s, userId, rows, percent);
      |lines| == |rows| && forall i :: 0 <= i < |rows| ==> BuildLine(s, userId, rows[i], percent) == Success(lines[i])
  {
    hide BuildLine;
    if rows != [] {
      BuiltInOrder(s, userId, rows[..|rows| - 1], percent);
    }
  }

  // A line that may be written: it makes a proper purchase and nothing one-off is owned already.
  ghost predicate LineOk(s: State, userId: nat, line: Line) {
    && PurchaseOk(s.listings, PurchaseFor(userId, line))
    && (line.pricing != PER_RUN ==> !Owns(s.purchases, userId, line.row.listingId))
  }

  ghost predicate OneOffsDiffer(lines: seq<Line>) {
    forall i, j :: 0 <= i < j < |lines| && lines[i].row.listingId == lines[j].row.listingId ==> lines[i].pricing == PER_RUN
  }

  lemma BuiltLineOk(s: State, userId: nat, row: CartRow, percent: int)
    requires Inv(s) && row in s.cart && row.userId == userId && BuildLine(s, userId, row, percent).Success?
    ensures var line := BuildLine(s, userId, row, percent).value;
      && line.row == row && LineOk(s, userId, line) && line.pricing == s.listings[row.listingId].pricing
      && line.packId == row.packId && line.amount == Quote(s, row)
      && (line.pricing == PER_RUN ==> line.runs == s.packs[row.packId.value].runs)
  {
    hide SalesOk, RunsOk, TotalsOk, AllApart, ActivePacks, ActiveCount, SlugsDiffer, TruncDiv;
    assert RowOk(s.listings, s.packs, row) && ListingOk(s.listings[row.listingId]);
    if row.packId.Some? {
      assert PackOk(s.listings, s.packs[row.packId.value]);
    }
  }

  lemma BuiltOk(s: State, userId: nat, percent: int)
    requires Inv(s) && Failures(s, userId, RowsOf(s.cart, userId), percent) == []
    ensures var lines := Built(s, userId, RowsOf(s.cart, userId), percent);
      (forall i :: 0 <= i < |lines| ==> LineOk(s, userId, lines[i])) && OneOffsDiffer(lines)
  {
    hide CatalogueOk, SalesOk, RunsOk, TotalsOk, LineOk, BuildLine, AllApart;
    var rows := RowsOf(s.cart, userId);
    var lines := Built(s, userId, rows, percent);
    BuiltInOrder(s, userId, rows, percent);
    forall i | 0 <= i < |lines|
      ensures lines[i].row == rows[i] && LineOk(s, userId, lines[i]) && lines[i].packId == rows[i].packId
    {
      assert rows[i] in rows;
      BuiltLineOk(s, userId, rows[i], percent);
    }
    RowsApart(s.cart, userId);
    forall i, j | 0 <= i < j < |lines| && lines[i].row.listingId == lines[j].row.listingId
      ensures lines[i].pricing == PER_RUN
    {
      assert rows[i] in rows && rows[j] in rows;
      BuiltLineOk(s, userId, rows[i], percent);
      DifferentPacks(s, rows, i, j);
    }
  }

  // Two rows of one user on one listing differ in their packs, so the listing sells runs.
  lemma DifferentPacks(s: State, rows: seq<CartRow>, i: nat, j: nat)
    requires AllApart(rows) && i < j < |rows|
    requires RowOk(s.listings, s.packs, rows[i]) && RowOk(s.listings, s.packs, rows[j])
    requires rows[i].userId == rows[j].userId && rows[i].listingId == rows[j].listingId
    ensures s.listings[rows[i].listingId].pricing == PER_RUN
  {
    assert Apart(rows[i], rows[j]);
  }

  // ------------------------------------------------------------------ the second loop

  lemma BuyersPush(purchases: seq<Purchase>, p: Purchase, l: nat)
    ensures |Buyers(purchases + [p], l)|
         == |Buyers(purchases, l)| + (if p.listingId == l && !Owns(purchases, p.userId, l) then 1 else 0)
  {
    assert (purchases + [p])[..|purchases|] == purchases;
    if p.listingId == l && Owns(purchases, p.userId, l) {
      assert Buyers(purchases, l) + {p.userId} == Buyers(purchases, l);
    }
  }

  lemma GrantedPush(purchases: seq<Purchase>, p: Purchase, key: (nat, nat))
    ensures GrantedBy(purchases + [p], key)
         == GrantedBy(purchases, key) + (if (p.userId, p.listingId) == key && p.pricing == PER_RUN then p.runs else 0)
  {
    assert (purchases + [p])[..|purchases|] == purchases;
  }

  lemma WriteLineListings(s: State, userId: nat, line: Line)
    requires line.row.listingId < |s.listings|
    ensures var s', l := WriteLine(s, userId, line), line.row.listingId;
      && |s'.listings| == |s.listings|
      && (forall i :: 0 <= i < |s.listings| ==>
            s'.listings[i] == s.listings[i].(totalUsers := s'.listings[i].totalUsers)
            && s'.listings[i].totalUsers
               == s.listings[i].totalUsers + (if i == l && !Owns(s.purchases, userId, l) then 1 else 0))
      && Grown(s.listings, s'.listings)
  {}

  lemma WriteLineSales(s: State, userId: nat, line: Line)
    requires Inv(s) && LineOk(s, userId, line)
    ensures var s' := WriteLine(s, userId, line); SalesOk(s'.listings, s'.purchases)
  {
    assert line.row.listingId < |s.listings|;
    hide CatalogueOk, CartOk, RunsOk, TotalsOk, Grant, WriteLine, Owns, PurchaseOk, Buyers;
    var s', p := WriteLine(s, userId, line), PurchaseFor(userId, line);
    WriteLinePurchases(s, userId, line);
    WriteLineListings(s, userId, line);
    PurchasesStayOk(s.listings, s'.listings, s.purchases, p);
    OneOffStaysSingle(s.listings, s.purchases, p);
    forall l: nat | l < |s'.listings| ensures s'.listings[l].totalUsers == |Buyers(s'.purchases, l)| {
      BuyersPush(s.purchases, p, l);
    }
  }

  lemma PurchasesStayOk(a: seq<Listing>, b: seq<Listing>, purchases: seq<Purchase>, p: Purchase)
    requires Grown(a, b) && PurchaseOk(a, p) && forall i :: 0 <= i < |purchases| ==> PurchaseOk(a, purchases[i])
    ensures forall i :: 0 <= i < |purchases + [p]| ==> PurchaseOk(b, (purchases + [p])[i])
  {
    forall i | 0 <= i < |purchases + [p]| ensures PurchaseOk(b, (purchases + [p])[i]) {
      assert PurchaseOk(a, (purchases + [p])[i]);
    }
  }

  lemma OneOffStaysSingle(listings: seq<Listing>, purchases: seq<Purchase>, p: Purchase)
    requires OwnedOnce(purchases) && PurchaseOk(listings, p)
    requires forall i :: 0 <= i < |purchases| ==> PurchaseOk(listings, purchases[i])
    requires p.pricing != PER_RUN ==> !Owns(purchases, p.userId, p.listingId)
    ensures OwnedOnce(purchases + [p])
  {
    forall i | 0 <= i < |purchases| && purchases[i].userId == p.userId && purchases[i].listingId == p.listingId
      ensures purchases[i].pricing == PER_RUN
    {
      assert PurchaseOk(listings, purchases[i]) && Owns(purchases, p.userId, p.listingId);
    }
  }

  lemma WriteLinePurchases(s: State, userId: nat, line: Line)
    requires line.row.listingId < |s.listings|
    ensures WriteLine(s, userId, line).purchases == s.purchases + [PurchaseFor(userId, line)]
  {}

  lemma WriteLineRuns(s: State, userId: nat, line: Line)
    requires Inv(s) && LineOk(s, userId, line)
    ensures var s' := WriteLine(s, userId, line);
      RunsOk(s'.purchases, s'.runs, s'.consumes) && TotalsOk(s'.listings, s'.runs, s'.consumes)
  {
    hide CatalogueOk, CartOk, SalesOk, Owns, ConsumedOn, TakenOn, TakenBy, BumpedOn, GrantedBy;
    var s', p := WriteLine(s, userId, line), PurchaseFor(userId, line);
    WriteLineListings(s, userId, line);
    var at := (userId, line.row.listingId);
    forall key: (nat, nat) ensures AccountOk(s'.purchases, s'.runs, s'.consumes, key) {
      GrantedPush(s.purchases, p, key);
      assert AccountOk(s.purchases, s.runs, s.consumes, key);
    }
    forall l: nat ensures SumMap(ConsumedOn(s'.runs, l)) == TakenOn(s'.consumes, l) {
      if line.pricing == PER_RUN && line.packId.Some? {
        ConsumedPut(s.runs, at, s'.runs[at], l);
      }
    }
  }

  lemma WriteLineKeeps(s: State, userId: nat, line: Line)
    requires Inv(s) && LineOk(s, userId, line)
    ensures Inv(WriteLine(s, userId, line))
  {
    hide CatalogueOk, CartOk, SalesOk, RunsOk, TotalsOk, Owns, Grant;
    var s' := WriteLine(s, userId, line);
    WriteLineListings(s, userId, line);
    CountersKeepCatalogue(s.listings, s'.listings, s.packs);
    GrownKeepsCart(s.listings, s'.listings, s.packs, s.packs, s.cart, s.nextCartId);
    WriteLineSales(s, userId, line);
    WriteLineRuns(s, userId, line);
  }

  function PurchasesFor(userId: nat, lines: seq<Line>): (r: seq<Purchase>)
    ensures |r| == |lines| && forall i :: 0 <= i < |r| ==> r[i] == PurchaseFor(userId, lines[i])
  {
    seq(|lines|, i requires 0 <= i < |lines| => PurchaseFor(userId, lines[i]))
  }

  // What the lines leave as it was, and the purchases they append.
  ghost predicate Written(s: State, userId: nat, lines: seq<Line>, s': State) {
    && |s'.listings| == |s.listings|
    && (forall i :: 0 <= i < |s.listings| ==>
          s'.listings[i] == s.listings[i].(totalUsers := s'.listings[i].totalUsers))
    && s'.purchases == s.purchases + PurchasesFor(userId, lines)
    && s'.packs == s.packs && s'.cart == s.cart && s'.nextCartId == s.nextCartId && s'.consumes == s.consumes
  }

  lemma {:induction false} WriteLinesKeep(s: State, userId: nat, lines: seq<Line>)
    requires Inv(s) && (forall i :: 0 <= i < |lines| ==> LineOk(s, userId, lines[i])) && OneOffsDiffer(lines)
    ensures LinesFit(s, lines)
    ensures Inv(WriteLines(s, userId, lines)) && Written(s, userId, lines, WriteLines(s, userId, lines))
  {
    hide Inv, WriteLine, Owns;
    if lines != [] {
      var n := |lines| - 1;
      WriteLinesKeep(s, userId, lines[..n]);
      var s1 := WriteLines(s, userId, lines[..n]);
      LineStaysOk(s, userId, lines, s1);
      WriteLineKeeps(s1, userId, lines[n]);
      WriteLineListings(s1, userId, lines[n]);
      WriteLinePurchases(s1, userId, lines[n]);
      WriteLineFrame(s1, userId, lines[n]);
      assert PurchasesFor(userId, lines) == PurchasesFor(userId, lines[..n]) + [PurchaseFor(userId, lines[n])];
    }
  }

  lemma WriteLineFrame(s: State, userId: nat, line: Line)
    requires line.row.listingId < |s.listings|
    ensures var s' := WriteLine(s, userId, line);
      s'.packs == s.packs && s'.cart == s.cart && s'.nextCartId == s.nextCartId && s'.consumes == s.consumes
  {}

  // Writing the earlier lines does not spoil the last one.
  lemma LineStaysOk(s: State, userId: nat, lines: seq<Line>, s1: State)
    requires lines != [] && OneOffsDiffer(lines)
    requires forall i :: 0 <= i < |lines| ==> LineOk(s, userId, lines[i])
    requires Written(s, userId, lines[..|lines| - 1], s1)
    ensures LineOk(s1, userId, lines[|lines| - 1])
  {
    var n := |lines| - 1;
    var line, l := lines[n], lines[n].row.listingId;
    assert LineOk(s, userId, line);
    if line.pricing != PER_RUN {
      forall k | 0 <= k < |s1.purchases|
        ensures !(s1.purchases[k].userId == userId && s1.purchases[k].listingId == l)
      {
        if k < |s.purchases| {
          assert s1.purchases[k] == s.purchases[k];
        } else {
          assert s1.purchases[k] == PurchaseFor(userId, lines[k - |s.purchases|]);
          assert LineOk(s, userId, lines[k - |s.purchases|]);
        }
      }
    }
  }

  lemma CheckoutKeeps(s: State, userId: nat, setting: Option<int>)
    requires Inv(s)
    ensures Inv(RunCheckout(s, userId, setting).state)
  {
    hide CatalogueOk, CartOk, SalesOk, RunsOk, TotalsOk, Built, Failures, WriteLines, LineOk;
    var c := RunCheckout(s, userId, setting);
    if c.answer.Success? {
      var percent := if setting.Some? then setting.value else DEFAULT_COMMISSION_PERCENT;
      var lines := Built(s, userId, RowsOf(s.cart, userId), percent);
      BuiltOk(s, userId, percent);
      WriteLinesKeep(s, userId, lines);
      var s1 := WriteLines(s, userId, lines);
      CartApart(s);
      RowsApart(s.cart, userId);
      MembersKeepCart(s1, OthersRows(s.cart, userId));
    }
  }

  lemma CartApart(s: State)
    requires Inv(s)
    ensures AllApart(s.cart)
  {}

  // ------------------------------------------------------------------ all or nothing

  function QuoteTotal(s: State, rows: seq<CartRow>): int
    requires forall row :: row in rows ==> RowOk(s.listings, s.packs, row)
  {
    if rows == [] then 0 else
      assert rows[|rows| - 1] in rows && RowOk(s.listings, s.packs, rows[|rows| - 1]);
      QuoteTotal(s, rows[..|rows| - 1]) + Quote(s, rows[|rows| - 1])
  }

  lemma {:induction false} TotalIsQuoted(s: State, rows: seq<CartRow>, lines: seq<Line>)
    requires forall row :: row in rows ==> RowOk(s.listings, s.packs, row)
    requires |lines| == |rows| && forall i :: 0 <= i < |rows| ==>
      RowOk(s.listings, s.packs, rows[i]) && lines[i].amount == Quote(s, rows[i])
    ensures SumAmounts(lines) == QuoteTotal(s, rows)
  {
    hide Quote, RowOk;
    if rows != [] {
      TotalIsQuoted(s, rows[..|rows| - 1], lines[..|lines| - 1]);
    }
  }

  lemma TakeOut(b: seq<CartRow>, k: nat)
    requires k < |b|
    ensures multiset(b[..k] + b[k + 1..]) == multiset(b) - multiset{b[k]}
  {
    assert b == b[..k] + ([b[k]] + b[k + 1..]);
  }

  lemma SameMembers(a: seq<CartRow>, b: seq<CartRow>)
    requires multiset(a) == multiset(b)
    ensures |a| == |b| && forall row :: row in a <==> row in b
  {
    assert |a| == |multiset(a)| && |b| == |multiset(b)|;
    forall row ensures row in a <==> row in b {
      assert row in a <==> row in multiset(a);
      assert row in b <==> row in multiset(b);
    }
  }

  // The adapter lists rows by time alone; in whatever order it shows them, the sum is the same.
  lemma {:induction false} QuoteInAnyOrder(s: State, a: seq<CartRow>, b: seq<CartRow>)
    requires forall row :: row in a ==> RowOk(s.listings, s.packs, row)
    requires multiset(a) == multiset(b)
    ensures forall row :: row in b ==> RowOk(s.listings, s.packs, row)
    ensures QuoteTotal(s, a) == QuoteTotal(s, b)
    decreases |a|
  {
    hide Quote, RowOk;
    SameMembers(a, b);
    if a != [] {
      var n := |a| - 1;
      assert a[n] in b;
      var k :| 0 <= k < |b| && b[k] == a[n];
      var rest := b[..k] + b[k + 1..];
      TakeOut(b, k);
      TakeOut(a, n);
      assert a[..n] + a[n + 1..] == a[..n];
      QuoteInAnyOrder(s, a[..n], rest);
      QuoteTakenOut(s, b, k);
    }
  }

  lemma {:induction false} QuoteTakenOut(s: State, b: seq<CartRow>, k: nat)
    requires k < |b| && forall row :: row in b ==> RowOk(s.listings, s.packs, row)
    ensures RowOk(s.listings, s.packs, b[k])
    ensures QuoteTotal(s, b) == QuoteTotal(s, b[..k] + b[k + 1..]) + Quote(s, b[k])
  {
    hide Quote, RowOk;
    assert b[k] in b;
    var n := |b| - 1;
    var rest := b[..k] + b[k + 1..];
    if k == n {
      assert rest == b[..n];
    } else {
      assert rest[|rest| - 1] == b[n];
      assert rest[..|rest| - 1] == b[..n][..k] + b[..n][k + 1..];
      QuoteTakenOut(s, b[..n], k);
    }
  }

  // What a successful checkout has bought for the i-th row.
  ghost predicate Bought(s: State, userId: nat, row: CartRow, p: Purchase)
    requires RowOk(s.listings, s.packs, row)
  {
    && p.userId == userId && p.listingId == row.listingId && p.packId == row.packId
    && p.pricing == s.listings[row.listingId].pricing && p.amount == Quote(s, row)
    && p.runs == (if row.packId.Some? then s.packs[row.packId.value].runs else 0)
  }

  // Checkout goes through exactly when the cart is non-empty and every row can be bought.
  lemma CheckoutSucceedsExactly(s: State, userId: nat, setting: Option<int>)
    ensures var rows := RowsOf(s.cart, userId);
      RunCheckout(s, userId, setting).answer.Success?
      <==> rows != [] && forall i :: 0 <= i < |rows| ==> Buyable(s, userId, rows[i])
  {
    hide Built, WriteLines, Failures, Unbuyable, Buyable;
    var rows := RowsOf(s.cart, userId);
    var percent := if setting.Some? then setting.value else DEFAULT_COMMISSION_PERCENT;
    FailuresReport(s, userId, rows, percent);
    if forall i :: 0 <= i < |rows| ==> Buyable(s, userId, rows[i]) {
      AllBuyable(s, userId, rows);
    }
  }

  lemma AllBuyable(s: State, userId: nat, rows: seq<CartRow>)
    requires forall i :: 0 <= i < |rows| ==> Buyable(s, userId, rows[i])
    ensures Unbuyable(s, userId, rows) == []
  {}

  // It changes nothing and reports exactly the rows that cannot be bought, in cart order, ...
  lemma FailedCheckoutChangesNothing(s: State, userId: nat, setting: Option<int>)
    requires RunCheckout(s, userId, setting).answer.Failure?
    ensures var c, bad := RunCheckout(s, userId, setting), Unbuyable(s, userId, RowsOf(s.cart, userId));
      && c.state == s
      && match c.answer.error
         case EMPTY_CART => RowsOf(s.cart, userId) == []
         case CHECKOUT_VALIDATION_FAILED(failures) =>
           && |failures| == |bad| > 0
           && forall i :: 0 <= i < |bad| ==> Reports(s, userId, bad[i], failures[i])
  {
    hide Built, WriteLines, Failures, Unbuyable, Reports;
    var percent := if setting.Some? then setting.value else DEFAULT_COMMISSION_PERCENT;
    FailuresReport(s, userId, RowsOf(s.cart, userId), percent);
  }

  // A run account has grown by exactly the runs of the new purchases on it.
  ghost predicate GrantsAdded(s: State, s': State, key: (nat, nat)) {
    var was, now := Account(s.runs, key), Account(s'.runs, key);
    var more := GrantedBy(s'.purchases, key) - GrantedBy(s.purchases, key);
    now.granted == was.granted + more && now.remaining == was.remaining + more && now.consumed == was.consumed
  }

  lemma AccountsGrow(s: State, s': State)
    requires Inv(s) && Inv(s') && s'.consumes == s.consumes
    ensures forall key :: GrantsAdded(s, s', key)
  {
    hide CatalogueOk, CartOk, SalesOk, TotalsOk, GrantedBy, TakenBy;
    forall key: (nat, nat) ensures GrantsAdded(s, s', key) {
      assert AccountOk(s.purchases, s.runs, s.consumes, key) && AccountOk(s'.purchases, s'.runs, s'.consumes, key);
    }
  }

  // The lines of a checkout that goes through: what it writes, and what each has to do with its row.
  lemma CheckoutLines(s: State, userId: nat, setting: Option<int>) returns (lines: seq<Line>)
    requires Inv(s) && RunCheckout(s, userId, setting).answer.Success?
    ensures var c, rows := RunCheckout(s, userId, setting), RowsOf(s.cart, userId);
      && |lines| == |rows| && c.answer.value == Summary(|s.purchases|, lines, SumAmounts(lines))
      && c.state.cart == OthersRows(s.cart, userId) && Written(s, userId, lines, c.state.(cart := s.cart))
      && forall i :: 0 <= i < |rows| ==>
           && lines[i].row == rows[i] && RowOk(s.listings, s.packs, rows[i]) && lines[i].amount == Quote(s, rows[i])
           && Bought(s, userId, rows[i], PurchaseFor(userId, lines[i]))
  {
    hide Built, Failures, WriteLines, LineOk, BuildLine, AllApart, CatalogueOk, SalesOk, RunsOk, TotalsOk, Quote,
         OthersRows, RowsOf, Bought;
    var percent := if setting.Some? then setting.value else DEFAULT_COMMISSION_PERCENT;
    var rows := RowsOf(s.cart, userId);
    lines := Built(s, userId, rows, percent);
    BuiltInOrder(s, userId, rows, percent);
    BuiltOk(s, userId, percent);
    WriteLinesKeep(s, userId, lines);
    forall i | 0 <= i < |rows|
      ensures lines[i].row == rows[i] && RowOk(s.listings, s.packs, rows[i]) && lines[i].amount == Quote(s, rows[i])
      ensures Bought(s, userId, rows[i], PurchaseFor(userId, lines[i]))
    {
      assert rows[i] in rows;
      BuiltLineOk(s, userId, rows[i], percent);
      LineBuys(s, userId, rows[i], lines[i]);
    }
  }

  // ... or buys every row once, in order, at the quoted prices, grants the runs bought, and empties
  // that user's cart only.
  lemma CheckoutBuysTheCart(s: State, userId: nat, setting: Option<int>)
    requires Inv(s) && RunCheckout(s, userId, setting).answer.Success?
    ensures forall row :: row in RowsOf(s.cart, userId) ==> RowOk(s.listings, s.packs, row)
    ensures var c, rows := RunCheckout(s, userId, setting), RowsOf(s.cart, userId);
      var n := |s.purchases|;
      && |c.state.purchases| == n + |rows| && c.state.purchases[..n] == s.purchases
      && (forall i :: 0 <= i < |rows| ==>
            RowOk(s.listings, s.packs, rows[i]) && Bought(s, userId, rows[i], c.state.purchases[n + i]))
      && c.answer.value.firstPurchaseId == n && |c.answer.value.lines| == |rows|
      && (forall i :: 0 <= i < |rows| ==>
            var line := c.answer.value.lines[i];
            line.row == rows[i] && c.state.purchases[n + i] == PurchaseFor(userId, line))
      && (forall key :: GrantsAdded(s, c.state, key))
      && c.answer.value.total == QuoteTotal(s, rows)
      && (forall row :: row in c.state.cart <==> row in s.cart && row.userId != userId)
      && c.state.packs == s.packs && c.state.consumes == s.consumes && |c.state.listings| == |s.listings|
      && (forall l :: 0 <= l < |s.listings| ==>
            c.state.listings[l] == s.listings[l].(totalUsers := c.state.listings[l].totalUsers))
  {
    hide RunCheckout, Bought, RowOk, AllApart, CatalogueOk, SalesOk, RunsOk, TotalsOk, Quote, GrantsAdded, RowsOf;
    var c, rows := RunCheckout(s, userId, setting), RowsOf(s.cart, userId);
    var lines := CheckoutLines(s, userId, setting);
    assert forall row :: row in rows ==> RowOk(s.listings, s.packs, row);
    TotalIsQuoted(s, rows, lines);
    assert c.state.purchases == s.purchases + PurchasesFor(userId, lines);
    CheckoutKeeps(s, userId, setting);
    AccountsGrow(s, c.state);
  }

  lemma LineBuys(s: State, userId: nat, row: CartRow, line: Line)
    requires RowOk(s.listings, s.packs, row) && LineOk(s, userId, line) && line.row == row
    requires line.packId == row.packId && line.amount == Quote(s, row)
    requires line.pricing == s.listings[row.listingId].pricing
    requires line.pricing == PER_RUN ==> line.runs == s.packs[row.packId.value].runs
    ensures Bought(s, userId, row, PurchaseFor(userId, line))
  {}

  // ------------------------------------------------------------------ retry

  // A checkout that loses a serialization race runs once more, on the state it then finds; a second
  // loss escapes. Neither loss leaves a trace.
  function RunWithRetry(first: State, later: State, userId: nat, setting: Option<int>, losses: nat): Option<Checkout> {
    if losses == 0 then Some(RunCheckout(first, userId, setting))
    else if losses == 1 then Some(RunCheckout(later, userId, setting))
    else None
  }

  lemma NoRowsLeft(cart: seq<CartRow>, userId: nat)
    requires forall row :: row in cart ==> row.userId != userId
    ensures RowsOf(cart, userId) == []
  {
    if RowsOf(cart, userId) != [] {
      assert RowsOf(cart, userId)[0] in RowsOf(cart, userId);
    }
  }

  // When the winner was the same user's other checkout, the retry finds an empty cart.
  lemma RetrySeesEmptyCart(s: State, userId: nat, setting: Option<int>, again: Option<int>)
    requires RunCheckout(s, userId, setting).answer.Success?
    ensures var won := RunCheckout(s, userId, setting).state;
      RunWithRetry(s, won, userId, again, 1) == Some(Checkout(won, Failure(EMPTY_CART)))
  {
    hide Built, Failures, WriteLines;
    NoRowsLeft(RunCheckout(s, userId, setting).state.cart, userId);
  }

  // ------------------------------------------------------------------ commission

  function SumCommissions(lines: seq<Line>): int {
    if lines == [] then 0 else SumCommissions(lines[..|lines| - 1]) + lines[|lines| - 1].commission
  }

  function SumEarned(lines: seq<Line>): int {
    if lines == [] then 0 else SumEarned(lines[..|lines| - 1]) + lines[|lines| - 1].makerEarned
  }

  // Priced as the first loop prices a line, and never below zero.
  ghost predicate Fair(line: Line, percent: int) {
    && 0 <= line.amount && line.commission == TruncDiv(line.amount * percent, 100)
    && line.makerEarned == line.amount - line.commission
  }

  lemma LineCommission(amount: int, percent: int)
    requires 0 <= amount && 0 <= percent <= 100
    ensures var c := TruncDiv(amount * percent, 100);
      && percent * amount - 100 < 100 * c <= percent * amount
      && 0 <= c <= amount
  {
    assert 0 <= amount * percent <= amount * 100;
  }

  // The rounding of n lines costs the platform less than n units, and makers get all the rest.
  lemma {:induction false} CommissionOfLines(lines: seq<Line>, percent: int)
    requires 0 <= percent <= 100 && forall i :: 0 <= i < |lines| ==> Fair(lines[i], percent)
    ensures var total, c := SumAmounts(lines), SumCommissions(lines);
      && 100 * c <= percent * total
      && (if lines == [] then c == total == 0 else percent * total - 100 * |lines| < 100 * c)
      && 0 <= c <= total && SumEarned(lines) == total - c
  {
    if lines != [] {
      var n := |lines| - 1;
      CommissionOfLines(lines[..n], percent);
      assert Fair(lines[n], percent);
      LineCommission(lines[n].amount, percent);
      var a, b := SumAmounts(lines[..n]), lines[n].amount;
      assert percent * (a + b) == percent * a + percent * b;
    }
  }

  lemma BuiltIsFair(s: State, userId: nat, row: CartRow, percent: int)
    requires Inv(s) && row in s.cart && row.userId == userId && BuildLine(s, userId, row, percent).Success?
    ensures Fair(BuildLine(s, userId, row, percent).value, percent)
  {
    hide Inv, TruncDiv, Owns;
    BuiltLineOk(s, userId, row, percent);
  }

  // A whole checkout's commission.
  lemma CheckoutCommission(s: State, userId: nat, setting: Option<int>)
    requires Inv(s) && (setting.Some? ==> 0 <= setting.value <= 100) && RunCheckout(s, userId, setting).answer.Success?
    ensures var percent := if setting.Some? then setting.value else DEFAULT_COMMISSION_PERCENT;
      var lines := RunCheckout(s, userId, setting).answer.value.lines;
      var total := RunCheckout(s, userId, setting).answer.value.total;
      && lines != []
      && percent * total - 100 * |lines| < 100 * SumCommissions(lines) <= percent * total
      && 0 <= SumCommissions(lines) <= total && SumEarned(lines) == total - SumCommissions(lines)
  {
    hide Inv, Built, Failures, WriteLines, BuildLine, Fair;
    var percent := if setting.Some? then setting.value else DEFAULT_COMMISSION_PERCENT;
    var rows := RowsOf(s.cart, userId);
    BuiltInOrder(s, userId, rows, percent);
    var lines := Built(s, userId, rows, percent);
    forall i | 0 <= i < |lines| ensures Fair(lines[i], percent) {
      assert rows[i] in rows;
      BuiltIsFair(s, userId, rows[i], percent);
    }
    CommissionOfLines(lines, percent);
  }
}
