/** The marketplace's services as they write their tables, proved against the whole steps. */
module MarketServices {
  import opened Common
  import opened Market
  import opened MarketInvariant
  import opened MarketCheckout
  import opened MarketRuns

  class MarketTables {
    var listings: seq<Listing>
    var packs: seq<Pack>
    var cart: seq<CartRow>
    var nextCartId: nat
    var purchases: seq<Purchase>
    var runs: map<(nat, nat), Balance>
    // The consume calls so far; no table holds them.
    ghost var consumes: seq<ConsumeCall>

    constructor ()
      ensures Contents() == INITIAL && Valid()
    {
      InitialInv();
      listings, packs, cart, nextCartId, purchases, runs, consumes := [], [], [], 1, [], map[], [];
    }

    ghost function Contents(): State
      reads this
    {
      State(listings, packs, cart, nextCartId, purchases, runs, consumes)
    }

    // The whole marketplace invariant, which every service method keeps.
    ghost predicate Valid()
      reads this
    {
      Inv(Contents())
    }
  }

  class ListingsService {
    const tables: MarketTables

    constructor (tables: MarketTables)
      ensures this.tables == tables
    {
      this.tables := tables;
    }

    method AssertPricingShape(dto: ListingInput) returns (ok: bool)
      ensures ok == PricingShapeOk(dto)
    {
      var packs := PacksGiven(dto);
      if dto.pricing == PER_RUN {
        if |packs| < RUN_PACKS_MIN || |packs| > RUN_PACKS_MAX { return false; }
        for i := 0 to |packs|
          invariant forall j :: 0 <= j < i ==> 0 < packs[j].runs && 0 < packs[j].price
        {
          if packs[i].runs <= 0 || packs[i].price <= 0 { return false; }
        }
        return dto.oneTimePrice.None?;
      }
      if dto.pricing == ONE_TIME {
        if dto.oneTimePrice.None? || dto.oneTimePrice.value <= 0 { return false; }
        return |packs| == 0;
      }
      if dto.oneTimePrice.Some? { return false; }
      ok := |packs| == 0;
    }

    method Create(maker: nat, dto: ListingInput) returns (r: Result<nat, Code>)
      requires tables.Valid()
      modifies tables`listings, tables`packs
      ensures tables.Valid()
      ensures Step(tables.Contents(), r) == Market.Create(old(tables.Contents()), maker, dto)
    {
      hide Inv;
      CreateKeeps(tables.Contents(), maker, dto);
      var ok := AssertPricingShape(dto);
      if !ok { return Failure(INVALID_PACKS); }
      var slugLower := Lower(dto.slug);
      if SlugTaken(tables.listings, slugLower) { return Failure(SLUG_TAKEN); }
      if ActiveCount(tables.listings, maker) >= MAKER_LISTINGS_QUOTA { return Failure(MAKER_QUOTA_EXCEEDED); }
      if SlugStored(tables.listings, slugLower) { return Failure(INTERNAL_ERROR); }
      var id := |tables.listings|;
      tables.listings := tables.listings + [Listing(maker, slugLower, dto.pricing, dto.oneTimePrice, DRAFT, false, 0, 0)];
      if dto.pricing == PER_RUN {
        tables.packs := tables.packs + NewPacks(id, PacksGiven(dto));
      }
      r := Success(id);
    }

    method LockAndLoad(id: nat) returns (r: Result<Listing, Code>)
      ensures r == if Visible(tables.Contents(), id) then Success(tables.listings[id]) else Failure(LISTING_NOT_FOUND)
    {
      if id >= |tables.listings| || tables.listings[id].deleted { return Failure(LISTING_NOT_FOUND); }
      r := Success(tables.listings[id]);
    }

    method SubmitForReview(id: nat, maker: nat) returns (r: Result<(), Code>)
      requires tables.Valid()
      modifies tables`listings
      ensures tables.Valid()
      ensures Step(tables.Contents(), r) == Market.SubmitForReview(old(tables.Contents()), id, maker)
    {
      hide Inv;
      SubmitKeeps(tables.Contents(), id, maker);
      var current := LockAndLoad(id);
      if current.Failure? { return Failure(current.error); }
      var listing := current.value;
      if listing.maker != maker { return Failure(LISTING_NOT_FOUND); }
      if listing.status != DRAFT { return Failure(INVALID_STATUS_TRANSITION); }
      if listing.pricing == PER_RUN {
        var activePacks := ActivePacks(tables.packs, id);
        if activePacks < RUN_PACKS_MIN || activePacks > RUN_PACKS_MAX { return Failure(INVALID_PACKS); }
      } else if listing.pricing == ONE_TIME {
        if listing.oneTimePrice.None? || listing.oneTimePrice.value <= 0 { return Failure(INVALID_PACKS); }
      }
      tables.listings := tables.listings[id := listing.(status := PENDING_REVIEW)];
      r := Success(());
    }

    method Move(id: nat, from: Status, to: Status) returns (r: Result<(), Code>)
      modifies tables`listings
      ensures Step(tables.Contents(), r) == Transition(old(tables.Contents()), id, from, to)
    {
      var current := LockAndLoad(id);
      if current.Failure? { return Failure(current.error); }
      if current.value.status != from { return Failure(INVALID_STATUS_TRANSITION); }
      tables.listings := tables.listings[id := current.value.(status := to)];
      r := Success(());
    }

    method Approve(id: nat) returns (r: Result<(), Code>)
      requires tables.Valid()
      modifies tables`listings
      ensures tables.Valid()
      ensures Step(tables.Contents(), r) == Market.Approve(old(tables.Contents()), id)
    {
      hide Inv;
      TransitionKeeps(tables.Contents(), id, PENDING_REVIEW, PUBLISHED);
      r := Move(id, PENDING_REVIEW, PUBLISHED);
    }

    method Reject(id: nat) returns (r: Result<(), Code>)
      requires tables.Valid()
      modifies tables`listings
      ensures tables.Valid()
      ensures Step(tables.Contents(), r) == Market.Reject(old(tables.Contents()), id)
    {
      hide Inv;
      TransitionKeeps(tables.Contents(), id, PENDING_REVIEW, REJECTED);
      r := Move(id, PENDING_REVIEW, REJECTED);
    }

    method Suspend(id: nat) returns (r: Result<(), Code>)
      requires tables.Valid()
      modifies tables`listings
      ensures tables.Valid()
      ensures Step(tables.Contents(), r) == Market.Suspend(old(tables.Contents()), id)
    {
      hide Inv;
      TransitionKeeps(tables.Contents(), id, PUBLISHED, SUSPENDED);
      r := Move(id, PUBLISHED, SUSPENDED);
    }

    method Unsuspend(id: nat) returns (r: Result<(), Code>)
      requires tables.Valid()
      modifies tables`listings
      ensures tables.Valid()
      ensures Step(tables.Contents(), r) == Market.Unsuspend(old(tables.Contents()), id)
    {
      hide Inv;
      TransitionKeeps(tables.Contents(), id, SUSPENDED, PUBLISHED);
      r := Move(id, SUSPENDED, PUBLISHED);
    }

    method SoftDelete(id: nat) returns (r: Result<(), Code>)
      requires tables.Valid()
      modifies tables`listings
      ensures tables.Valid()
      ensures Step(tables.Contents(), r) == Market.SoftDelete(old(tables.Contents()), id)
    {
      hide Inv;
      DeleteKeeps(tables.Contents(), id);
      if id >= |tables.listings| { return Failure(NOT_FOUND); }
      tables.listings := tables.listings[id := tables.listings[id].(deleted := true)];
      r := Success(());
    }
  }

  class CartService {
    const tables: MarketTables

    constructor (tables: MarketTables)
      ensures this.tables == tables
    {
      this.tables := tables;
    }

    method AddItem(userId: nat, listingId: nat, packId: Option<nat>) returns (r: Result<CartRow, Code>)
      requires tables.Valid()
      modifies tables`cart, tables`nextCartId
      ensures tables.Valid()
      ensures Step(tables.Contents(), r) == Market.AddItem(old(tables.Contents()), userId, listingId, packId)
    {
      hide Inv;
      AddItemKeeps(tables.Contents(), userId, listingId, packId);
      if listingId >= |tables.listings| || tables.listings[listingId].deleted { return Failure(LISTING_NOT_FOUND); }
      var listing := tables.listings[listingId];
      if listing.status != PUBLISHED { return Failure(LISTING_NOT_PURCHASABLE); }
      if listing.maker == userId { return Failure(CANNOT_BUY_OWN_LISTING); }
      var runPackId: Option<nat> := None;
      if listing.pricing == PER_RUN {
        if packId.None? { return Failure(INVALID_RUN_PACK); }
        var p := packId.value;
        if p >= |tables.packs| || tables.packs[p].listingId != listingId || !tables.packs[p].active {
          return Failure(INVALID_RUN_PACK);
        }
        runPackId := Some(p);
      } else if Owns(tables.purchases, userId, listingId) {
        return Failure(ALREADY_OWNED);
      }
      var existing := FindRow(tables.cart, userId, listingId, runPackId);
      if existing.Some? { return Success(existing.value); }
      var row := CartRow(tables.nextCartId, userId, listingId, runPackId);
      tables.cart := tables.cart + [row];
      tables.nextCartId := tables.nextCartId + 1;
      r := Success(row);
    }

    method RemoveItem(userId: nat, id: nat) returns (r: Result<(), Code>)
      requires tables.Valid()
      modifies tables`cart
      ensures tables.Valid()
      ensures Step(tables.Contents(), r) == Market.RemoveItem(old(tables.Contents()), userId, id)
    {
      hide Inv;
      RemoveItemKeeps(tables.Contents(), userId, id);
      var left := Without(tables.cart, userId, id);
      if |left| == |tables.cart| { return Failure(NOT_FOUND); }
      tables.cart := left;
      r := Success(());
    }

    method MergeGuestCart(userId: nat, items: seq<Item>) returns (merged: nat, failed: seq<MergeFailure>)
      requires tables.Valid()
      modifies tables`cart, tables`nextCartId
      ensures tables.Valid()
      ensures Merge(tables.Contents(), merged, failed) == Market.MergeGuestCart(old(tables.Contents()), userId, items)
    {
      hide Inv, Market.AddItem;
      MergeKeeps(tables.Contents(), userId, items);
      merged, failed := 0, [];
      for i := 0 to |items|
        invariant tables.Valid()
        invariant Merge(tables.Contents(), merged, failed)
               == Market.MergeGuestCart(old(tables.Contents()), userId, items[..i])
      {
        ghost var before := tables.Contents();
        assert items[..i + 1][..i] == items[..i];
        AddItemRefusal(before, userId, items[i]);
        var step := AddItem(userId, items[i].listingId, items[i].packId);
        if step.Success? {
          merged := merged + 1;
        } else {
          failed := failed + [MergeFailure(items[i], step.error)];
        }
      }
      assert items[..|items|] == items;
    }

    lemma AddItemRefusal(s: State, userId: nat, item: Item)
      ensures var step := Market.AddItem(s, userId, item.listingId, item.packId);
        step.answer.Failure? ==> step.state == s
    {}
  }

  class CheckoutService {
    const tables: MarketTables

    constructor (tables: MarketTables)
      ensures this.tables == tables
    {
      this.tables := tables;
    }

    // The body of the first loop.
    method Validate(userId: nat, cartItem: CartRow, percent: int) returns (r: Result<Line, LineFailure>)
      ensures r == BuildLine(tables.Contents(), userId, cartItem, percent)
    {
      var l := cartItem.listingId;
      if l >= |tables.listings| || tables.listings[l].deleted || tables.listings[l].status != PUBLISHED {
        return Failure(LineFailure(cartItem.id, l, LISTING_NOT_PURCHASABLE));
      }
      var listing := tables.listings[l];
      var packId: Option<nat> := None;
      var amount, granted := 0, 0;
      if listing.pricing == PER_RUN {
        if cartItem.packId.None? { return Failure(LineFailure(cartItem.id, l, INVALID_RUN_PACK)); }
        var p := cartItem.packId.value;
        if p >= |tables.packs| || tables.packs[p].listingId != l || !tables.packs[p].active {
          return Failure(LineFailure(cartItem.id, l, INVALID_RUN_PACK));
        }
        packId, amount, granted := Some(p), tables.packs[p].price, tables.packs[p].runs;
      } else {
        if Owns(tables.purchases, userId, l) { return Failure(LineFailure(cartItem.id, l, ALREADY_OWNED)); }
        if listing.pricing == ONE_TIME && listing.oneTimePrice.Some? {
          amount := listing.oneTimePrice.value;
        }
      }
      var commission := TruncDiv(amount * percent, 100);
      r := Success(Line(cartItem, listing.pricing, packId, amount, commission, amount - commission, granted));
    }

    // The body of the second loop.
    method Write(userId: nat, line: Line)
      requires line.row.listingId < |tables.listings|
      modifies tables`purchases, tables`runs, tables`listings
      ensures tables.Contents() == WriteLine(old(tables.Contents()), userId, line)
    {
      var l := line.row.listingId;
      var priorPurchase := Owns(tables.purchases, userId, l);
      tables.purchases := tables.purchases + [Purchase(userId, l, line.pricing, line.packId, line.runs, line.amount,
                                                       line.commission, line.makerEarned)];
      if line.pricing == PER_RUN && line.packId.Some? {
        var key := (userId, l);
        if key in tables.runs {
          var b := tables.runs[key];
          tables.runs := tables.runs[key := b.(remaining := b.remaining + line.runs, granted := b.granted + line.runs)];
        } else {
          tables.runs := tables.runs[key := Balance(line.runs, line.runs, 0)];
        }
      }
      if !priorPurchase {
        var listing := tables.listings[l];
        tables.listings := tables.listings[l := listing.(totalUsers := listing.totalUsers + 1)];
      }
    }

    // The first loop.
    method ValidateAll(userId: nat, cartRows: seq<CartRow>, percent: int)
      returns (built: seq<Line>, failures: seq<LineFailure>)
      ensures built == Built(tables.Contents(), userId, cartRows, percent)
      ensures failures == Failures(tables.Contents(), userId, cartRows, percent)
    {
      hide BuildLine;
      built, failures := [], [];
      for i := 0 to |cartRows|
        invariant built == Built(tables.Contents(), userId, cartRows[..i], percent)
        invariant failures == Failures(tables.Contents(), userId, cartRows[..i], percent)
      {
        assert cartRows[..i + 1][..i] == cartRows[..i];
        var line := Validate(userId, cartRows[i], percent);
        if line.Success? {
          built := built + [line.value];
        } else {
          failures := failures + [line.error];
        }
      }
      assert cartRows[..|cartRows|] == cartRows;
    }

    // The second loop.
    method WriteAll(userId: nat, built: seq<Line>) returns (lines: seq<Line>, total: int)
      requires LinesFit(tables.Contents(), built)
      modifies tables`purchases, tables`runs, tables`listings
      ensures tables.Contents() == WriteLines(old(tables.Contents()), userId, built)
      ensures lines == built && total == SumAmounts(built)
    {
      hide WriteLine;
      ghost var before := tables.Contents();
      lines, total := [], 0;
      for i := 0 to |built|
        invariant lines == built[..i] && total == SumAmounts(built[..i])
        invariant LinesFit(before, built[..i]) && tables.Contents() == WriteLines(before, userId, built[..i])
      {
        assert built[..i + 1][..i] == built[..i];
        Write(userId, built[i]);
        total := total + built[i].amount;
        lines := lines + [built[i]];
      }
      assert built[..|built|] == built;
    }

    method RunCheckoutTransaction(userId: nat, setting: Option<int>) returns (r: Result<Summary, CheckoutError>)
      requires tables.Valid()
      modifies tables`purchases, tables`runs, tables`listings, tables`cart
      ensures tables.Valid()
      ensures Checkout(tables.Contents(), r) == RunCheckout(old(tables.Contents()), userId, setting)
    {
      hide Inv, Built, Failures, WriteLines, RowsOf, OthersRows, LinesFit;
      ghost var before := tables.Contents();
      CheckoutKeeps(before, userId, setting);
      var cartRows := RowsOf(tables.cart, userId);
      if |cartRows| == 0 { return Failure(EMPTY_CART); }
      var percent := if setting.Some? then setting.value else DEFAULT_COMMISSION_PERCENT;
      var built, failures := ValidateAll(userId, cartRows, percent);
      if |failures| > 0 { return Failure(CHECKOUT_VALIDATION_FAILED(failures)); }
      var firstPurchaseId := |tables.purchases|;
      BuiltFits(before, userId, cartRows, percent);
      var lines, total := WriteAll(userId, built);
      WritingKeepsCart(before, userId, built);
      tables.cart := OthersRows(tables.cart, userId);
      r := Success(Summary(firstPurchaseId, lines, total));
    }

    lemma WritingKeepsCart(s: State, userId: nat, lines: seq<Line>)
      requires LinesFit(s, lines)
      ensures WriteLines(s, userId, lines).cart == s.cart
    {}
  }

  class RunsService {
    const tables: MarketTables

    constructor (tables: MarketTables)
      ensures this.tables == tables
    {
      this.tables := tables;
    }

    // One consume call with nothing in between; the listing is given by id instead of slug.
    method Consume(userId: nat, listingId: nat, keyMatches: bool) returns (r: Result<(int, int), Code>)
      requires tables.Valid()
      modifies tables`runs, tables`listings, tables`consumes
      ensures tables.Valid()
      ensures var s, i := old(tables.Contents()), |old(tables.consumes)|;
        var begun := BeginConsume(s, userId, listingId, keyMatches);
        if begun == s then tables.Contents() == s && r == Failure(INVALID_API_KEY)
        else
          var after := StepConsume(begun, i);
          && tables.Contents() == StepConsume(after, i)
          && r == (if after.consumes[i].stage == Taken then
                     var b := after.runs[(userId, listingId)]; Success((b.remaining, b.consumed))
                   else Failure(INSUFFICIENT_RUNS))
    {
      hide Inv;
      ConsumeKeeps(tables.Contents(), userId, listingId, keyMatches);
      if listingId >= |tables.listings| || tables.listings[listingId].deleted
         || tables.listings[listingId].status != PUBLISHED || tables.listings[listingId].pricing != PER_RUN {
        return Failure(INVALID_API_KEY);
      }
      if !keyMatches { return Failure(INVALID_API_KEY); }
      ghost var i := |tables.consumes|;
      tables.consumes := tables.consumes + [ConsumeCall(userId, listingId, Accepted)];
      var key := (userId, listingId);
      if key !in tables.runs || tables.runs[key].remaining <= 0 {
        tables.consumes := tables.consumes[i := ConsumeCall(userId, listingId, Refused)];
        return Failure(INSUFFICIENT_RUNS);
      }
      var b := tables.runs[key];
      tables.runs := tables.runs[key := b.(remaining := b.remaining - 1, consumed := b.consumed + 1)];
      tables.consumes := tables.consumes[i := ConsumeCall(userId, listingId, Taken)];
      var listing := tables.listings[listingId];
      tables.listings := tables.listings[listingId := listing.(totalRuns := listing.totalRuns + 1)];
      tables.consumes := tables.consumes[i := ConsumeCall(userId, listingId, Done)];
      r := Success((b.remaining - 1, b.consumed + 1));
    }
  }
}
