/** The marketplace's guarantees over any run of its steps. */
module MarketRuns {
  import opened Common
  import opened Sums
  import opened Market
  import opened MarketInvariant
  import opened MarketCheckout

  lemma InvDo(s: State, e: Event)
    requires Inv(s)
    ensures Inv(Do(s, e))
  {
    hide Inv, Create, SubmitForReview, Transition, AddItem, RemoveItem, MergeGuestCart, RunCheckout, BeginConsume,
         StepConsume, CrashConsume;
    match e
    case Created(maker, dto) => CreateKeeps(s, maker, dto);
    case Submitted(id, maker) => SubmitKeeps(s, id, maker);
    case Approved(id) => TransitionKeeps(s, id, PENDING_REVIEW, PUBLISHED);
    case Rejected(id) => TransitionKeeps(s, id, PENDING_REVIEW, REJECTED);
    case Suspended(id) => TransitionKeeps(s, id, PUBLISHED, SUSPENDED);
    case Unsuspended(id) => TransitionKeeps(s, id, SUSPENDED, PUBLISHED);
    case Deleted(id) => DeleteKeeps(s, id);
    case ItemAdded(user, l, p) => AddItemKeeps(s, user, l, p);
    case ItemRemoved(user, id) => RemoveItemKeeps(s, user, id);
    case CartMerged(user, items) => MergeKeeps(s, user, items);
    case CheckedOut(user, percent) => CheckoutKeeps(s, user, percent);
    case ConsumeBegun(user, l, keyMatches) => BeginConsumeKeeps(s, user, l, keyMatches);
    case ConsumeStepped(i) => if i < |s.consumes| { StepConsumeKeeps(s, i); }
    case ConsumeCrashed(i) => if i < |s.consumes| { CrashConsumeKeeps(s, i); }
  }

  lemma TransitionKeeps(s: State, id: nat, from: Status, to: Status)
    requires Inv(s)
    ensures Inv(Transition(s, id, from, to).state)
  {
    hide Inv;
    RestatedKeeps(s, Transition(s, id, from, to).state.listings);
  }

  lemma SubmitKeeps(s: State, id: nat, maker: nat)
    requires Inv(s)
    ensures Inv(SubmitForReview(s, id, maker).state)
  {
    hide Inv, SubmissionReady;
    RestatedKeeps(s, SubmitForReview(s, id, maker).state.listings);
  }

  lemma DeleteKeeps(s: State, id: nat)
    requires Inv(s)
    ensures Inv(SoftDelete(s, id).state)
  {
    hide Inv;
    if id < |s.listings| {
      RestatedKeeps(s, SoftDelete(s, id).state.listings);
    }
  }

  // A consume call with nothing in between.
  lemma ConsumeKeeps(s: State, userId: nat, listingId: nat, keyMatches: bool)
    requires Inv(s)
    ensures var begun, i := BeginConsume(s, userId, listingId, keyMatches), |s.consumes|;
      Inv(begun) && (i < |begun.consumes| ==>
        |StepConsume(begun, i).consumes| == |begun.consumes| && Inv(StepConsume(StepConsume(begun, i), i)))
  {
    hide Inv, StepConsume;
    var begun, i := BeginConsume(s, userId, listingId, keyMatches), |s.consumes|;
    BeginConsumeKeeps(s, userId, listingId, keyMatches);
    if i < |begun.consumes| {
      StepConsumeKeeps(begun, i);
      StepKeepsLength(begun, i);
      StepConsumeKeeps(StepConsume(begun, i), i);
    }
  }

  lemma StepKeepsLength(s: State, i: nat)
    requires i < |s.consumes|
    ensures |StepConsume(s, i).consumes| == |s.consumes|
  {}

  lemma {:induction false} RunInv(events: seq<Event>)
    ensures Inv(Run(INITIAL, events))
  {
    hide Inv, Do;
    if events == [] {
      InitialInv();
    } else {
      RunInv(events[..|events| - 1]);
      InvDo(Run(INITIAL, events[..|events| - 1]), events[|events| - 1]);
    }
  }

  // ------------------------------------------------------------------ runs

  // The consume calls that took a run and have not bumped the counter, dead ones included.
  function WaitingOn(consumes: seq<ConsumeCall>, l: nat): nat {
    if consumes == [] then 0 else
      var n := |consumes| - 1;
      WaitingOn(consumes[..n], l)
      + (if consumes[n].listingId == l && (consumes[n].stage == Taken || consumes[n].stage == Lost) then 1 else 0)
  }

  lemma {:induction false} TakenIsBumpedOrWaiting(consumes: seq<ConsumeCall>, l: nat)
    ensures TakenOn(consumes, l) == BumpedOn(consumes, l) + WaitingOn(consumes, l)
  {
    if consumes != [] {
      TakenIsBumpedOrWaiting(consumes[..|consumes| - 1], l);
    }
  }

  // However consumes, crashes and checkouts interleave: no balance goes below zero, what is left and
  // what was used add up to what the user's purchases granted, every run used was one successful
  // call, and the listing's counter is behind the users' totals by exactly the calls in between.
  lemma RunsAddUp(events: seq<Event>, userId: nat, l: nat)
    ensures var s := Run(INITIAL, events);
      var b := Account(s.runs, (userId, l));
      && 0 <= b.remaining && b.remaining + b.consumed == b.granted
      && b.granted == GrantedBy(s.purchases, (userId, l)) && b.consumed == TakenBy(s.consumes, (userId, l))
    ensures var s := Run(INITIAL, events);
      l < |s.listings| ==> s.listings[l].totalRuns + WaitingOn(s.consumes, l) == SumMap(ConsumedOn(s.runs, l))
  {
    hide CatalogueOk, CartOk, SalesOk, Run;
    RunInv(events);
    var s := Run(INITIAL, events);
    assert AccountOk(s.purchases, s.runs, s.consumes, (userId, l));
    TakenIsBumpedOrWaiting(s.consumes, l);
  }

  // ------------------------------------------------------------------ ownership

  // A user buys a free or one-time listing at most once, nobody buys their own, and totalUsers is
  // the number of distinct buyers.
  lemma OwnershipHolds(events: seq<Event>)
    ensures var s := Run(INITIAL, events);
      && OwnedOnce(s.purchases)
      && (forall i :: 0 <= i < |s.purchases| ==>
            var p := s.purchases[i];
            p.listingId < |s.listings| && s.listings[p.listingId].maker != p.userId
            && p.pricing == s.listings[p.listingId].pricing)
      && (forall l :: 0 <= l < |s.listings| ==> s.listings[l].totalUsers == |Buyers(s.purchases, l)|)
  {
    hide CatalogueOk, CartOk, RunsOk, TotalsOk, Run, Owns;
    RunInv(events);
    var s := Run(INITIAL, events);
    forall i | 0 <= i < |s.purchases| ensures PurchaseOk(s.listings, s.purchases[i]) {}
  }

  // ------------------------------------------------------------------ listings and prices

  // Every listing stays ready for submission, so that check never refuses; prices and packs are
  // positive; live slugs differ; and no maker has more live listings than the quota.
  lemma CatalogueHolds(events: seq<Event>)
    ensures var s := Run(INITIAL, events);
      && (forall l: nat :: l < |s.listings| ==> SubmissionReady(s, l))
      && (forall i :: 0 <= i < |s.packs| ==> 0 < s.packs[i].price && 0 < s.packs[i].runs && s.packs[i].active)
      && SlugsDiffer(s.listings)
      && (forall maker :: ActiveCount(s.listings, maker) <= MAKER_LISTINGS_QUOTA)
  {
    hide CartOk, SalesOk, RunsOk, TotalsOk, Run;
    RunInv(events);
    var s := Run(INITIAL, events);
    forall i | 0 <= i < |s.packs| ensures PackOk(s.listings, s.packs[i]) {}
    forall l: nat | l < |s.listings| ensures SubmissionReady(s, l) {
      assert ListingOk(s.listings[l]);
    }
  }

  // Whatever checkout sells has its price: more than nothing unless the listing is free, with runs
  // exactly for run packs, and the commission and the maker's share make up the amount. The price a
  // one-time line falls back to is never used.
  lemma EveryLineIsPriced(events: seq<Event>, userId: nat, row: CartRow, percent: int)
    ensures var s := Run(INITIAL, events);
      row in s.cart && row.userId == userId && BuildLine(s, userId, row, percent).Success? ==>
        var line := BuildLine(s, userId, row, percent).value;
        && row.listingId < |s.listings| && line.pricing == s.listings[row.listingId].pricing
        && (if line.pricing == FREE then line.amount == 0 else 0 < line.amount)
        && (if line.pricing == PER_RUN then 0 < line.runs else line.runs == 0)
        && line.commission + line.makerEarned == line.amount
        && (line.pricing == ONE_TIME ==> s.listings[row.listingId].oneTimePrice == Some(line.amount))
        && (line.pricing == PER_RUN ==>
              && row.packId.Some? && row.packId.value < |s.packs|
              && line.amount == s.packs[row.packId.value].price && line.runs == s.packs[row.packId.value].runs)
  {
    hide Inv, Run, Owns, TruncDiv;
    RunInv(events);
    var s := Run(INITIAL, events);
    if row in s.cart && row.userId == userId && BuildLine(s, userId, row, percent).Success? {
      BuiltLineOk(s, userId, row, percent);
      PricedListing(s, row);
    }
  }

  lemma PricedListing(s: State, row: CartRow)
    requires Inv(s) && row in s.cart
    ensures row.listingId < |s.listings| && ListingOk(s.listings[row.listingId])
  {
    assert RowOk(s.listings, s.packs, row);
  }

  // ------------------------------------------------------------------ review

  // What one step can do to a listing's status.
  lemma StatusStep(s: State, e: Event, l: nat)
    requires Inv(s)
    ensures var s' := Do(s, e);
      && |s.listings| <= |s'.listings|
      && (l < |s.listings| && s'.listings[l].status != s.listings[l].status ==>
            match s'.listings[l].status
            case PENDING_REVIEW => e.Submitted? && e.id == l && s.listings[l].status == DRAFT
            case PUBLISHED =>
              (e == Approved(l) && s.listings[l].status == PENDING_REVIEW) || s.listings[l].status == SUSPENDED
            case SUSPENDED => s.listings[l].status == PUBLISHED
            case REJECTED => s.listings[l].status == PENDING_REVIEW
            case DRAFT => false)
      && (|s.listings| <= l < |s'.listings| ==> s'.listings[l].status == DRAFT)
  {
    hide Inv, CheckItem, SubmissionReady, SlugTaken, ActiveCount, PricingShapeOk, RunCheckout, MergeGuestCart;
    match e
    case CheckedOut(user, percent) =>
      if RunCheckout(s, user, percent).answer.Success? { CheckoutBuysTheCart(s, user, percent); }
      else { FailedCheckoutChangesNothing(s, user, percent); }
    case CartMerged(user, items) => MergeTouchesCart(s, user, items);
    case _ =>
  }

  lemma {:induction false} MergeTouchesCart(s: State, userId: nat, items: seq<Item>)
    ensures var s' := MergeGuestCart(s, userId, items).state;
      s' == s.(cart := s'.cart, nextCartId := s'.nextCartId) && s.cart <= s'.cart
  {
    hide CheckItem, FindRow;
    if items != [] {
      MergeTouchesCart(s, userId, items[..|items| - 1]);
    }
  }

  // Only checkout sells, and only what is published.
  lemma SaleStep(s: State, e: Event, user: nat, l: nat)
    requires Inv(s) && Owns(Do(s, e).purchases, user, l)
    ensures Owns(s.purchases, user, l) || (l < |s.listings| && s.listings[l].status == PUBLISHED)
  {
    hide Inv, CheckItem, SubmissionReady, SlugTaken, ActiveCount, PricingShapeOk, RunCheckout, MergeGuestCart, Owns;
    match e
    case CheckedOut(buyer, percent) =>
      if RunCheckout(s, buyer, percent).answer.Success? { CheckoutSellsPublished(s, buyer, percent, user, l); }
      else { FailedCheckoutChangesNothing(s, buyer, percent); }
    case CartMerged(buyer, items) => MergeTouchesCart(s, buyer, items);
    case _ =>
  }

  lemma CheckoutSellsPublished(s: State, buyer: nat, percent: Option<int>, user: nat, l: nat)
    requires Inv(s) && RunCheckout(s, buyer, percent).answer.Success?
    requires Owns(RunCheckout(s, buyer, percent).state.purchases, user, l)
    ensures Owns(s.purchases, user, l) || (l < |s.listings| && s.listings[l].status == PUBLISHED)
  {
    hide Inv, RunCheckout, RowsOf, SellsPack, Quote;
    CheckoutBuysTheCart(s, buyer, percent);
    CheckoutSucceedsExactly(s, buyer, percent);
    var after, n := RunCheckout(s, buyer, percent).state.purchases, |s.purchases|;
    var k :| 0 <= k < |after| && after[k].userId == user && after[k].listingId == l;
    if k < n {
      assert after[..n][k] == s.purchases[k];
    } else {
      var rows := RowsOf(s.cart, buyer);
      assert Bought(s, buyer, rows[k - n], after[n + (k - n)]);
      assert Buyable(s, buyer, rows[k - n]);
    }
  }

  ghost predicate WasSubmitted(events: seq<Event>, l: nat) {
    exists i :: 0 <= i < |events| && events[i].Submitted? && events[i].id == l
  }

  ghost predicate WasApproved(events: seq<Event>, l: nat) {
    WasSubmitted(events, l) && exists i :: 0 <= i < |events| && events[i] == Approved(l)
  }

  ghost predicate Reviewed(events: seq<Event>, s: State, l: nat) {
    && (l < |s.listings| && s.listings[l].status == PENDING_REVIEW ==> WasSubmitted(events, l))
    && (l < |s.listings| && s.listings[l].status in {PUBLISHED, SUSPENDED} ==> WasApproved(events, l))
    && (forall user :: Owns(s.purchases, user, l) ==> WasApproved(events, l))
  }

  lemma ReviewPush(events: seq<Event>, l: nat)
    requires events != []
    ensures var n := |events| - 1;
      && (WasSubmitted(events[..n], l) ==> WasSubmitted(events, l))
      && (WasApproved(events[..n], l) ==> WasApproved(events, l))
      && (events[n].Submitted? && events[n].id == l ==> WasSubmitted(events, l))
      && (events[n] == Approved(l) && WasSubmitted(events[..n], l) ==> WasApproved(events, l))
  {
    var n := |events| - 1;
    assert events[n] == events[|events| - 1];
    if WasSubmitted(events[..n], l) {
      var i :| 0 <= i < n && events[..n][i].Submitted? && events[..n][i].id == l;
      assert events[i].Submitted?;
    }
    if WasApproved(events[..n], l) {
      var i :| 0 <= i < n && events[..n][i] == Approved(l);
      assert events[i] == Approved(l);
    }
  }

  // Nothing is sold that was not submitted and approved before.
  lemma {:induction false} OnlyReviewedListingsSell(events: seq<Event>, l: nat)
    ensures Reviewed(events, Run(INITIAL, events), l)
  {
    hide Inv, Do, WasSubmitted, WasApproved, Owns;
    if events == [] {
      NothingSoldYet(l);
    } else {
      var n := |events| - 1;
      var s, e := Run(INITIAL, events[..n]), events[n];
      OnlyReviewedListingsSell(events[..n], l);
      RunInv(events[..n]);
      ReviewPush(events, l);
      StatusStep(s, e, l);
      forall user | Owns(Do(s, e).purchases, user, l) ensures WasApproved(events, l) {
        SaleStep(s, e, user, l);
      }
    }
  }

  lemma NothingSoldYet(l: nat)
    ensures forall user :: !Owns(INITIAL.purchases, user, l)
  {}

  // ------------------------------------------------------------------ the cart

  // Adding an item again returns the row it already has and changes nothing.
  lemma AddingAgainIsHarmless(s: State, userId: nat, listingId: nat, packId: Option<nat>)
    requires Inv(s) && AddItem(s, userId, listingId, packId).answer.Success?
    ensures var first := AddItem(s, userId, listingId, packId);
      AddItem(first.state, userId, listingId, packId) == first
  {
    hide CatalogueOk, SalesOk, RunsOk, TotalsOk, Owns;
    AddItemKeeps(s, userId, listingId, packId);
    var first := AddItem(s, userId, listingId, packId);
    var pack := CheckItem(s, userId, listingId, packId).value;
    var row := first.answer.value;
    assert row in first.state.cart && row == CartRow(row.id, userId, listingId, pack);
    var i :| 0 <= i < |first.state.cart| && first.state.cart[i] == row;
    assert HasRow(first.state.cart, userId, listingId, pack);
    var found := FindRow(first.state.cart, userId, listingId, pack).value;
    var j :| 0 <= j < |first.state.cart| && first.state.cart[j] == found;
    OneRow(first.state.cart, i, j);
  }

  lemma OneRow(cart: seq<CartRow>, i: nat, j: nat)
    requires AllApart(cart) && i < |cart| && j < |cart|
    requires cart[i] == cart[j].(id := cart[i].id)
    ensures i == j
  {}

  // Removal succeeds exactly when the user has a row of that id, and takes that row only.
  lemma RemoveItemExactly(s: State, userId: nat, id: nat)
    ensures var step := RemoveItem(s, userId, id);
      && step.state == s.(cart := step.state.cart)
      && (forall row :: row in step.state.cart <==> row in s.cart && !(row.id == id && row.userId == userId))
      && (step.answer.Success? <==> exists row :: row in s.cart && row.id == id && row.userId == userId)
  {
    WithoutExactly(s.cart, userId, id);
  }

  lemma {:induction false} WithoutExactly(cart: seq<CartRow>, userId: nat, id: nat)
    ensures var left := Without(cart, userId, id);
      && (forall row :: row in left <==> row in cart && !(row.id == id && row.userId == userId))
      && |left| <= |cart|
      && (|left| == |cart| <==> forall row :: row in cart ==> !(row.id == id && row.userId == userId))
  {
    if cart != [] {
      WithoutExactly(cart[1..], userId, id);
      assert cart == [cart[0]] + cart[1..];
    }
  }

  // Taking a freshly added row out again gives the cart back.
  lemma RemoveUndoesAdd(s: State, userId: nat, listingId: nat, packId: Option<nat>)
    requires Inv(s)
    ensures var added := AddItem(s, userId, listingId, packId);
      added.answer.Success? && added.answer.value !in s.cart ==>
        RemoveItem(added.state, userId, added.answer.value.id) == Step(added.state.(cart := s.cart), Success(()))
  {
    hide CheckItem, CatalogueOk, SalesOk, RunsOk, TotalsOk;
    var added := AddItem(s, userId, listingId, packId);
    if added.answer.Success? && added.answer.value !in s.cart {
      var row := added.answer.value;
      assert row.id == s.nextCartId && added.state.cart == s.cart + [row];
      WithoutLast(s.cart, row);
    }
  }

  lemma {:induction false} WithoutLast(cart: seq<CartRow>, row: CartRow)
    requires forall r :: r in cart ==> r.id != row.id
    ensures Without(cart + [row], row.userId, row.id) == cart
  {
    if cart == [] {
      assert [row][1..] == [];
    } else {
      assert cart[0] in cart && forall r :: r in cart[1..] ==> r in cart;
      assert (cart + [row])[0] == cart[0] && (cart + [row])[1..] == cart[1..] + [row];
      WithoutLast(cart[1..], row);
    }
  }

  // What must have become of one guest item: its row is there, or it is reported with its reason.
  ghost predicate Settled(s: State, userId: nat, item: Item, cart: seq<CartRow>, failed: seq<MergeFailure>) {
    match CheckItem(s, userId, item.listingId, item.packId)
    case Success(pack) => HasRow(cart, userId, item.listingId, pack)
    case Failure(code) => MergeFailure(item, code) in failed
  }

  // A reported failure is that of one of the items.
  ghost predicate Deserved(s: State, userId: nat, items: seq<Item>, f: MergeFailure) {
    f.item in items && CheckItem(s, userId, f.item.listingId, f.item.packId) == Failure(f.reason)
  }

  // A row of the cart was there before or is that of one of the items.
  ghost predicate Accounted(s: State, userId: nat, items: seq<Item>, row: CartRow) {
    row in s.cart || (row.userId == userId && exists item :: item in items && Makes(s, userId, item, row))
  }

  predicate Makes(s: State, userId: nat, item: Item, row: CartRow) {
    item.listingId == row.listingId && CheckItem(s, userId, item.listingId, item.packId) == Success(row.packId)
  }

  // A merge keeps every earlier row, gives each acceptable item its row, reports each other item with
  // its reason, and does nothing else.
  lemma {:induction false} MergeIsExact(s: State, userId: nat, items: seq<Item>)
    ensures var m := MergeGuestCart(s, userId, items);
      && s.cart <= m.state.cart && m.merged + |m.failed| == |items|
      && (forall i :: 0 <= i < |items| ==> Settled(s, userId, items[i], m.state.cart, m.failed))
      && (forall f :: f in m.failed ==> Deserved(s, userId, items, f))
      && (forall row :: row in m.state.cart ==> Accounted(s, userId, items, row))
  {
    hide CheckItem, Settled, Deserved, Accounted;
    MergeTouchesCart(s, userId, items);
    if items == [] {
      forall row | row in s.cart ensures Accounted(s, userId, items, row) { WasThere(s, userId, items, row); }
    } else {
      var n := |items| - 1;
      var m, after := MergeGuestCart(s, userId, items[..n]), MergeGuestCart(s, userId, items);
      MergeTouchesCart(s, userId, items[..n]);
      MergeIsExact(s, userId, items[..n]);
      SameChecks(s, m.state, userId, items[n]);
      AddSettles(s, m, userId, items[n]);
      assert items == items[..n] + [items[n]];
      forall i | 0 <= i < |items| ensures Settled(s, userId, items[i], after.state.cart, after.failed) {
        if i < n {
          assert items[..n][i] == items[i];
          StaysSettled(s, userId, items[i], m.state.cart, m.failed, after.state.cart, after.failed);
        }
      }
      forall f | f in after.failed ensures Deserved(s, userId, items, f) { DeservedMore(s, m, userId, items, f); }
      forall row | row in after.state.cart ensures Accounted(s, userId, items, row) {
        AccountedMore(s, m, userId, items, row);
      }
    }
  }

  lemma WasThere(s: State, userId: nat, items: seq<Item>, row: CartRow)
    requires row in s.cart
    ensures Accounted(s, userId, items, row)
  {}

  // The checks do not look at the cart.
  lemma SameChecks(s: State, s1: State, userId: nat, item: Item)
    requires s1 == s.(cart := s1.cart, nextCartId := s1.nextCartId)
    ensures CheckItem(s1, userId, item.listingId, item.packId) == CheckItem(s, userId, item.listingId, item.packId)
  {}

  // The state and the report after one more item.
  function Merged(m: Merge, userId: nat, item: Item): Merge {
    var step := AddItem(m.state, userId, item.listingId, item.packId);
    match step.answer
    case Success(_) => Merge(step.state, m.merged + 1, m.failed)
    case Failure(code) => Merge(m.state, m.merged, m.failed + [MergeFailure(item, code)])
  }

  lemma AddSettles(s: State, m: Merge, userId: nat, item: Item)
    requires CheckItem(m.state, userId, item.listingId, item.packId) == CheckItem(s, userId, item.listingId, item.packId)
    ensures var r := Merged(m, userId, item);
      m.state.cart <= r.state.cart && m.failed <= r.failed && Settled(s, userId, item, r.state.cart, r.failed)
  {
    hide CheckItem, Visible;
    var r := Merged(m, userId, item);
    var checked := CheckItem(m.state, userId, item.listingId, item.packId);
    if checked.Success? && |r.state.cart| > |m.state.cart| {
      assert r.state.cart[|m.state.cart|].packId == checked.value;
    }
    if checked.Failure? {
      assert r.failed[|m.failed|] == MergeFailure(item, checked.error);
    }
  }

  lemma StaysSettled(
    s: State, userId: nat, item: Item, cart: seq<CartRow>, failed: seq<MergeFailure>,
    more: seq<CartRow>, noted: seq<MergeFailure>)
    requires cart <= more && failed <= noted && Settled(s, userId, item, cart, failed)
    ensures Settled(s, userId, item, more, noted)
  {
    hide CheckItem;
    var checked := CheckItem(s, userId, item.listingId, item.packId);
    if checked.Success? {
      var i :| 0 <= i < |cart| && cart[i].userId == userId && cart[i].listingId == item.listingId
               && cart[i].packId == checked.value;
      assert more[i] == cart[i];
    } else {
      var i :| 0 <= i < |failed| && failed[i] == MergeFailure(item, checked.error);
      assert noted[i] == failed[i];
    }
  }

  lemma DeservedMore(s: State, m: Merge, userId: nat, items: seq<Item>, f: MergeFailure)
    requires items != [] && f in Merged(m, userId, items[|items| - 1]).failed
    requires forall g :: g in m.failed ==> Deserved(s, userId, items[..|items| - 1], g)
    requires var item := items[|items| - 1];
      CheckItem(m.state, userId, item.listingId, item.packId) == CheckItem(s, userId, item.listingId, item.packId)
    ensures Deserved(s, userId, items, f)
  {
    hide CheckItem;
    assert items[|items| - 1] in items;
    if f in m.failed {
      assert Deserved(s, userId, items[..|items| - 1], f);
    }
  }

  lemma AccountedMore(s: State, m: Merge, userId: nat, items: seq<Item>, row: CartRow)
    requires items != [] && row in Merged(m, userId, items[|items| - 1]).state.cart
    requires forall r :: r in m.state.cart ==> Accounted(s, userId, items[..|items| - 1], r)
    requires var item := items[|items| - 1];
      CheckItem(m.state, userId, item.listingId, item.packId) == CheckItem(s, userId, item.listingId, item.packId)
    ensures Accounted(s, userId, items, row)
  {
    hide CheckItem;
    var n := |items| - 1;
    assert items[n] in items;
    if row in m.state.cart {
      assert Accounted(s, userId, items[..n], row);
      if row !in s.cart {
        var item :| item in items[..n] && Makes(s, userId, item, row);
        assert item in items;
      }
    } else {
      assert Makes(s, userId, items[n], row);
    }
  }
}
