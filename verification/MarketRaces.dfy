/** Exactly when a checkout sells a one-off listing twice, two overlapping adds that get there, and
    exactly when overlapping creates pass the quota. */
module MarketRaces {
  import opened Common
  import opened Market
  import opened MarketInvariant
  import opened MarketCheckout

  // No two of the rows are on the same free or one-time listing.
  ghost predicate OneOffRowsDiffer(s: State, rows: seq<CartRow>) {
    forall i, j :: 0 <= i < j < |rows| && rows[i].listingId == rows[j].listingId && rows[i].listingId < |s.listings| ==>
      s.listings[rows[i].listingId].pricing == PER_RUN
  }

  lemma {:induction false} WrittenPurchases(s: State, userId: nat, lines: seq<Line>)
    requires LinesFit(s, lines)
    ensures WriteLines(s, userId, lines).purchases == s.purchases + PurchasesFor(userId, lines)
  {
    hide WriteLine;
    if lines != [] {
      var n := |lines| - 1;
      WrittenPurchases(s, userId, lines[..n]);
      WriteLinePurchases(WriteLines(s, userId, lines[..n]), userId, lines[n]);
      assert PurchasesFor(userId, lines) == PurchasesFor(userId, lines[..n]) + [PurchaseFor(userId, lines[n])];
    }
  }

  lemma BuiltLineTerms(s: State, userId: nat, row: CartRow, percent: int)
    requires BuildLine(s, userId, row, percent).Success?
    ensures var line := BuildLine(s, userId, row, percent).value;
      && line.row == row && row.listingId < |s.listings| && line.pricing == s.listings[row.listingId].pricing
      && (line.pricing != PER_RUN ==> !Owns(s.purchases, userId, row.listingId))
  {
    hide TruncDiv, Owns;
  }

  // The purchases of a checkout that goes through, for any cart at all.
  lemma CheckoutPurchases(s: State, userId: nat, setting: Option<int>) returns (lines: seq<Line>)
    requires RunCheckout(s, userId, setting).answer.Success?
    ensures RunCheckout(s, userId, setting).state.purchases == s.purchases + PurchasesFor(userId, lines)
    ensures var rows := RowsOf(s.cart, userId);
      && |lines| == |rows|
      && forall i :: 0 <= i < |rows| ==>
           && lines[i].row == rows[i] && rows[i].listingId < |s.listings|
           && lines[i].pricing == s.listings[rows[i].listingId].pricing
           && (lines[i].pricing != PER_RUN ==> !Owns(s.purchases, userId, rows[i].listingId))
  {
    hide Built, Failures, WriteLines, BuildLine, RowsOf, Owns;
    var percent := if setting.Some? then setting.value else DEFAULT_COMMISSION_PERCENT;
    var rows := RowsOf(s.cart, userId);
    BuiltInOrder(s, userId, rows, percent);
    BuiltFits(s, userId, rows, percent);
    lines := Built(s, userId, rows, percent);
    WrittenPurchases(s, userId, lines);
    forall i | 0 <= i < |rows|
      ensures lines[i].row == rows[i] && rows[i].listingId < |s.listings|
      ensures lines[i].pricing == s.listings[rows[i].listingId].pricing
      ensures lines[i].pricing != PER_RUN ==> !Owns(s.purchases, userId, rows[i].listingId)
    {
      BuiltLineTerms(s, userId, rows[i], percent);
    }
  }

  ghost predicate PricedAsListed(s: State) {
    forall i :: 0 <= i < |s.purchases| ==>
      s.purchases[i].listingId < |s.listings| && s.purchases[i].pricing == s.listings[s.purchases[i].listingId].pricing
  }

  // Appending purchases of one user, priced as everything on the same listing is.
  lemma AppendedOnceExactly(past: seq<Purchase>, added: seq<Purchase>, userId: nat)
    requires OwnedOnce(past) && forall i :: 0 <= i < |added| ==> added[i].userId == userId
    requires forall i :: 0 <= i < |added| && added[i].pricing != PER_RUN ==> !Owns(past, userId, added[i].listingId)
    requires forall i, j :: 0 <= i < |past| && 0 <= j < |added| && past[i].listingId == added[j].listingId ==>
      past[i].pricing == added[j].pricing
    ensures OwnedOnce(past + added)
       <==> forall i, j :: 0 <= i < j < |added| && added[i].listingId == added[j].listingId ==> added[i].pricing == PER_RUN
  {
    var all, n := past + added, |past|;
    if OwnedOnce(all) {
      forall i, j | 0 <= i < j < |added| && added[i].listingId == added[j].listingId ensures added[i].pricing == PER_RUN {
        assert all[n + i] == added[i] && all[n + j] == added[j];
      }
    }
    if forall i, j :: 0 <= i < j < |added| && added[i].listingId == added[j].listingId ==> added[i].pricing == PER_RUN {
      forall i, j | 0 <= i < j < |all| && all[i].userId == all[j].userId && all[i].listingId == all[j].listingId
        ensures all[i].pricing == PER_RUN
      {
        if n <= j {
          assert all[j] == added[j - n];
          if n <= i {
            assert all[i] == added[i - n];
          } else {
            assert all[i] == past[i] && Owns(past, userId, all[j].listingId);
          }
        }
      }
    }
  }

  // Whatever rows the cart holds, a checkout keeps one-off listings bought at most once exactly when
  // no two of its rows are on the same one.
  lemma OneOffsStaySingleExactly(s: State, userId: nat, setting: Option<int>)
    requires OwnedOnce(s.purchases) && PricedAsListed(s) && RunCheckout(s, userId, setting).answer.Success?
    ensures OwnedOnce(RunCheckout(s, userId, setting).state.purchases) <==> OneOffRowsDiffer(s, RowsOf(s.cart, userId))
  {
    hide RunCheckout, RowsOf, OwnedOnce, Owns;
    var lines := CheckoutPurchases(s, userId, setting);
    var rows, added := RowsOf(s.cart, userId), PurchasesFor(userId, lines);
    forall i | 0 <= i < |rows|
      ensures added[i].userId == userId && added[i].listingId == rows[i].listingId < |s.listings|
      ensures added[i].pricing == s.listings[rows[i].listingId].pricing
      ensures added[i].pricing != PER_RUN ==> !Owns(s.purchases, userId, added[i].listingId)
    {}
    AppendedOnceExactly(s.purchases, added, userId);
  }

  // A free listing that user 1 made and an admin approved.
  const FOR_SALE: seq<Event> :=
    [Created(1, ListingInput("agent", FREE, None, None)), Submitted(0, 1), Approved(0)]

  lemma ForSale() returns (s: State)
    ensures s == Run(INITIAL, FOR_SALE)
    ensures s == State([Listing(1, Lower("agent"), FREE, None, PUBLISHED, false, 0, 0)], [], [], 1, [], map[], [])
  {
    var row := Listing(1, Lower("agent"), FREE, None, DRAFT, false, 0, 0);
    var s1 := INITIAL.(listings := [row]);
    var s2 := INITIAL.(listings := [row.(status := PENDING_REVIEW)]);
    s := INITIAL.(listings := [row.(status := PUBLISHED)]);
    var a, b, c := Created(1, ListingInput("agent", FREE, None, None)), Submitted(0, 1), Approved(0);
    assert Do(INITIAL, a) == s1;
    assert Do(s1, b) == s2 && Do(s2, c) == s;
    assert [a, b, c][..2] == [a, b] && [a, b][..1] == [a] && [a][..0] == [];
    assert Run(INITIAL, [a]) == s1;
    assert Run(INITIAL, [a, b]) == s2;
  }

  // Two adds of user 2 that both read before either creates, then one checkout: the listing is
  // bought twice.
  lemma RacingAddsBuyTwice()
    ensures var s := Run(INITIAL, FOR_SALE);
      && CheckItem(s, 2, 0, None) == Success(None) && !HasRow(s.cart, 2, 0, None)
      && AddItem(s, 2, 0, None) == InsertRow(s, 2, 0, None)
      && var raced := InsertRow(InsertRow(s, 2, 0, None).state, 2, 0, None).state;
         && |raced.cart| == 2 && !AllApart(raced.cart)
         && RunCheckout(raced, 2, None).answer.Success?
         && !OwnedOnce(RunCheckout(raced, 2, None).state.purchases)
  {
    hide Run, RunCheckout, Lower;
    var s := ForSale();
    var raced := InsertRow(InsertRow(s, 2, 0, None).state, 2, 0, None).state;
    assert raced == s.(cart := [CartRow(1, 2, 0, None), CartRow(2, 2, 0, None)], nextCartId := 3);
    TwoRows(raced);
  }

  lemma TwoRows(s: State)
    requires s.cart == [CartRow(1, 2, 0, None), CartRow(2, 2, 0, None)] && s.purchases == []
    requires |s.listings| == 1 && s.listings[0].pricing == FREE
    requires s.listings[0].status == PUBLISHED && !s.listings[0].deleted
    ensures !AllApart(s.cart) && RunCheckout(s, 2, None).answer.Success?
    ensures !OwnedOnce(RunCheckout(s, 2, None).state.purchases)
  {
    hide RunCheckout, OwnedOnce, RowsOf, AllApart;
    TwoRowsOf(s.cart);
    OwnedNothing();
    CheckoutSucceedsExactly(s, 2, None);
    OneOffsStaySingleExactly(s, 2, None);
    assert s.cart[0].listingId == s.cart[1].listingId;
  }

  lemma TwoRowsOf(cart: seq<CartRow>)
    requires cart == [CartRow(1, 2, 0, None), CartRow(2, 2, 0, None)]
    ensures RowsOf(cart, 2) == cart && !AllApart(cart)
  {
    var r1, r2 := CartRow(1, 2, 0, None), CartRow(2, 2, 0, None);
    assert [r1, r2][..1] == [r1] && [r1][..0] == [];
    assert RowsOf([r1], 2) == [r1];
    assert [r1] + [r2] == cart;
    assert !Apart(cart[0], cart[1]);
  }

  lemma OwnedNothing()
    ensures OwnedOnce([])
  {}

  // ------------------------------------------------------------------ overlapping creates

  // Creates of one maker that write one after another without checking again.
  function InsertAll(s: State, maker: nat, dtos: seq<ListingInput>): State {
    if dtos == [] then s else
      var n := |dtos| - 1;
      InsertListing(InsertAll(s, maker, dtos[..n]), maker, dtos[n]).state
  }

  function StoredSlugs(listings: seq<Listing>): set<string> {
    set i | 0 <= i < |listings| :: listings[i].slug
  }

  function AskedSlugs(dtos: seq<ListingInput>): set<string> {
    set k | 0 <= k < |dtos| :: Lower(dtos[k].slug)
  }

  lemma StoredPush(listings: seq<Listing>, row: Listing)
    ensures StoredSlugs(listings + [row]) == StoredSlugs(listings) + {row.slug}
  {
    var all := listings + [row];
    forall x ensures x in StoredSlugs(all) <==> x in StoredSlugs(listings) + {row.slug} {
      if i :| 0 <= i < |listings| && listings[i].slug == x {
        assert all[i].slug == x;
      }
      assert all[|listings|].slug == row.slug;
    }
  }

  lemma AskedPush(dtos: seq<ListingInput>)
    requires dtos != []
    ensures var n := |dtos| - 1;
      AskedSlugs(dtos) == AskedSlugs(dtos[..n]) + {Lower(dtos[n].slug)}
  {
    hide Lower;
    var n := |dtos| - 1;
    forall x ensures x in AskedSlugs(dtos) <==> x in AskedSlugs(dtos[..n]) + {Lower(dtos[n].slug)} {
      if k :| 0 <= k < n && Lower(dtos[k].slug) == x {
        assert Lower(dtos[..n][k].slug) == x;
      }
    }
  }

  lemma InsertAdds(s: State, maker: nat, dto: ListingInput)
    requires SlugsDiffer(s.listings)
    ensures var s', slug := InsertListing(s, maker, dto).state, Lower(dto.slug);
      && SlugsDiffer(s'.listings) && StoredSlugs(s'.listings) == StoredSlugs(s.listings) + {slug}
      && ActiveCount(s'.listings, maker)
         == ActiveCount(s.listings, maker) + (if slug in StoredSlugs(s.listings) then 0 else 1)
  {
    hide Lower, ActiveCount;
    var s', slug := InsertListing(s, maker, dto).state, Lower(dto.slug);
    if SlugStored(s.listings, slug) {
      assert slug in StoredSlugs(s.listings);
    } else {
      StoredPush(s.listings, s'.listings[|s.listings|]);
      ActivePush(s.listings, s'.listings[|s.listings|], maker);
    }
  }

  lemma OneMore<T>(stored: set<T>, earlier: set<T>, x: T)
    ensures |earlier + {x} - stored| == |earlier - stored| + (if x in stored + earlier then 0 else 1)
    ensures stored + earlier + {x} == stored + (earlier + {x})
  {
    assert earlier + {x} - stored == if x in stored + earlier then earlier - stored else (earlier - stored) + {x};
  }

  // Every slug asked for is stored once, however the creates overlap; each new one is one more listing.
  lemma {:induction false} InsertAllAdds(s: State, maker: nat, dtos: seq<ListingInput>)
    requires SlugsDiffer(s.listings)
    ensures var s', unseen := InsertAll(s, maker, dtos), AskedSlugs(dtos) - StoredSlugs(s.listings);
      && SlugsDiffer(s'.listings) && StoredSlugs(s'.listings) == StoredSlugs(s.listings) + AskedSlugs(dtos)
      && ActiveCount(s'.listings, maker) == ActiveCount(s.listings, maker) + |unseen|
  {
    hide Lower, ActiveCount, InsertListing, StoredSlugs, SlugsDiffer;
    if dtos == [] {
      assert AskedSlugs(dtos) == {};
    } else {
      hide AskedSlugs;
      var n := |dtos| - 1;
      InsertAllAdds(s, maker, dtos[..n]);
      InsertAdds(InsertAll(s, maker, dtos[..n]), maker, dtos[n]);
      AskedPush(dtos);
      OneMore(StoredSlugs(s.listings), AskedSlugs(dtos[..n]), Lower(dtos[n].slug));
    }
  }

  // Creates that write without checking again keep the maker within the quota exactly when the
  // listings that are there and the new slugs together fit.
  lemma OverlappingCreatesFitExactly(s: State, maker: nat, dtos: seq<ListingInput>)
    requires SlugsDiffer(s.listings)
    ensures var s' := InsertAll(s, maker, dtos);
      && SlugsDiffer(s'.listings)
      && (ActiveCount(s'.listings, maker) <= MAKER_LISTINGS_QUOTA <==>
            ActiveCount(s.listings, maker) + |AskedSlugs(dtos) - StoredSlugs(s.listings)| <= MAKER_LISTINGS_QUOTA)
  {
    hide SlugsDiffer, AskedSlugs, StoredSlugs, ActiveCount;
    InsertAllAdds(s, maker, dtos);
  }

  function Slug(k: nat): string {
    "agent" + seq(k, _ => 'a')
  }

  // Free listings with the slugs "agent", "agenta", "agentaa" and so on.
  function ManyInputs(n: nat): (r: seq<ListingInput>)
    ensures |r| == n
  {
    seq(n, k requires 0 <= k < n => ListingInput(Slug(k), FREE, None, None))
  }

  lemma {:induction false} ManySlugs(n: nat)
    ensures |AskedSlugs(ManyInputs(n))| == n
    ensures forall x :: x in AskedSlugs(ManyInputs(n)) ==> |x| < n + 5
  {
    hide Lower, AskedSlugs;
    if n == 0 {
      NoSlugs();
    } else {
      var asked, earlier, slug := AskedSlugs(ManyInputs(n)), AskedSlugs(ManyInputs(n - 1)), Lower(Slug(n - 1));
      ManySlugs(n - 1);
      AskedPush(ManyInputs(n));
      assert ManyInputs(n)[..n - 1] == ManyInputs(n - 1);
      assert asked == earlier + {slug} && slug !in earlier;
    }
  }

  lemma NoSlugs()
    ensures AskedSlugs(ManyInputs(0)) == {}
  {}

  // Fifty-one creates that all counted an empty catalogue take a maker past the quota.
  lemma OverlappingCreatesPassTheQuota()
    ensures var dtos := ManyInputs(MAKER_LISTINGS_QUOTA + 1);
      && (forall k :: 0 <= k < |dtos| ==> CreateAdmitted(INITIAL, 1, dtos[k]))
      && ActiveCount(InsertAll(INITIAL, 1, dtos).listings, 1) == MAKER_LISTINGS_QUOTA + 1
  {
    var dtos := ManyInputs(MAKER_LISTINGS_QUOTA + 1);
    forall k | 0 <= k < |dtos| ensures CreateAdmitted(INITIAL, 1, dtos[k]) {}
    hide Lower, AskedSlugs, CreateAdmitted, InsertAll;
    ManySlugs(MAKER_LISTINGS_QUOTA + 1);
    InsertAllAdds(INITIAL, 1, dtos);
    assert StoredSlugs(INITIAL.listings) == {};
  }
}
