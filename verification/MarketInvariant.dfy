/** What every step of the marketplace keeps. */
module MarketInvariant {
  import opened Common
  import opened Sums
  import opened Market

  // ------------------------------------------------------------------ the catalogue

  ghost predicate ListingOk(l: Listing) {
    && (l.pricing == ONE_TIME <==> l.oneTimePrice.Some?)
    && (l.oneTimePrice.Some? ==> 0 < l.oneTimePrice.value)
    && Lower(l.slug) == l.slug
  }

  ghost predicate PackOk(listings: seq<Listing>, p: Pack) {
    p.listingId < |listings| && listings[p.listingId].pricing == PER_RUN && 0 < p.runs && 0 < p.price && p.active
  }

  ghost predicate SlugsDiffer(listings: seq<Listing>) {
    forall i, j :: 0 <= i < j < |listings| ==> listings[i].slug != listings[j].slug
  }

  ghost predicate CatalogueOk(listings: seq<Listing>, packs: seq<Pack>) {
    && (forall i :: 0 <= i < |listings| ==> ListingOk(listings[i]))
    && (forall i :: 0 <= i < |packs| ==> PackOk(listings, packs[i]))
    && (forall l :: 0 <= l < |listings| && listings[l].pricing == PER_RUN ==>
          RUN_PACKS_MIN <= ActivePacks(packs, l) <= RUN_PACKS_MAX)
    && SlugsDiffer(listings)
    && (forall maker :: ActiveCount(listings, maker) <= MAKER_LISTINGS_QUOTA)
  }

  // The parts of a listing that no step changes.
  ghost predicate SameTerms(a: Listing, b: Listing) {
    a.maker == b.maker && a.pricing == b.pricing && a.oneTimePrice == b.oneTimePrice && a.slug == b.slug
  }

  ghost predicate Grown(a: seq<Listing>, b: seq<Listing>) {
    |a| <= |b| && forall i :: 0 <= i < |a| ==> SameTerms(a[i], b[i])
  }

  // ------------------------------------------------------------------ the cart

  ghost predicate RowOk(listings: seq<Listing>, packs: seq<Pack>, row: CartRow) {
    && row.listingId < |listings| && listings[row.listingId].maker != row.userId
    && (listings[row.listingId].pricing == PER_RUN <==> row.packId.Some?)
    && (row.packId.Some? ==> row.packId.value < |packs| && packs[row.packId.value].listingId == row.listingId)
  }

  // One row per (user, listing, pack), oldest id first.
  ghost predicate Apart(a: CartRow, b: CartRow) {
    a.id < b.id && !(a.userId == b.userId && a.listingId == b.listingId && a.packId == b.packId)
  }

  ghost predicate AllApart(cart: seq<CartRow>) {
    forall i, j :: 0 <= i < j < |cart| ==> Apart(cart[i], cart[j])
  }

  ghost predicate CartOk(listings: seq<Listing>, packs: seq<Pack>, cart: seq<CartRow>, nextCartId: nat) {
    && (forall row :: row in cart ==> RowOk(listings, packs, row) && row.id < nextCartId)
    && AllApart(cart)
  }

  // ------------------------------------------------------------------ sales

  ghost predicate PurchaseOk(listings: seq<Listing>, p: Purchase) {
    && p.listingId < |listings| && listings[p.listingId].maker != p.userId
    && p.pricing == listings[p.listingId].pricing
    && (if p.pricing == FREE then p.amount == 0 else 0 < p.amount)
    && (if p.pricing == PER_RUN then 0 < p.runs && p.packId.Some? else p.runs == 0 && p.packId.None?)
    && p.commission + p.makerEarned == p.amount
  }

  ghost predicate OwnedOnce(purchases: seq<Purchase>) {
    forall i, j :: 0 <= i < j < |purchases| && purchases[i].userId == purchases[j].userId
                   && purchases[i].listingId == purchases[j].listingId ==>
      purchases[i].pricing == PER_RUN
  }

  function Buyers(purchases: seq<Purchase>, l: nat): (r: set<nat>)
    ensures forall user :: user in r <==> Owns(purchases, user, l)
  {
    if purchases == [] then {} else
      var n := |purchases| - 1;
      var r := Buyers(purchases[..n], l) + (if purchases[n].listingId == l then {purchases[n].userId} else {});
      assert purchases == purchases[..n] + [purchases[n]];
      OwnsPush(purchases[..n], purchases[n], l);
      r
  }

  lemma OwnsPush(purchases: seq<Purchase>, p: Purchase, l: nat)
    ensures forall user ::
      Owns(purchases + [p], user, l) <==> Owns(purchases, user, l) || (p.listingId == l && p.userId == user)
  {
    var all, n := purchases + [p], |purchases|;
    forall user
      ensures Owns(all, user, l) <==> Owns(purchases, user, l) || (p.listingId == l && p.userId == user)
    {
      if i :| 0 <= i < n && purchases[i].userId == user && purchases[i].listingId == l {
        assert all[i] == purchases[i];
      }
      assert all[n] == p;
    }
  }

  ghost predicate SalesOk(listings: seq<Listing>, purchases: seq<Purchase>) {
    && (forall i :: 0 <= i < |purchases| ==> PurchaseOk(listings, purchases[i]))
    && OwnedOnce(purchases)
    && (forall l :: 0 <= l < |listings| ==> listings[l].totalUsers == |Buyers(purchases, l)|)
  }

  // ------------------------------------------------------------------ runs

  function GrantedBy(purchases: seq<Purchase>, key: (nat, nat)): int {
    if purchases == [] then 0 else
      var n := |purchases| - 1;
      GrantedBy(purchases[..n], key)
      + (if (purchases[n].userId, purchases[n].listingId) == key && purchases[n].pricing == PER_RUN
         then purchases[n].runs else 0)
  }

  predicate TookRun(c: ConsumeCall) {
    c.stage == Taken || c.stage == Done || c.stage == Lost
  }

  // The successful consume calls of a user on a listing, and all of a listing's.
  function TakenBy(consumes: seq<ConsumeCall>, key: (nat, nat)): nat {
    if consumes == [] then 0 else
      var n := |consumes| - 1;
      TakenBy(consumes[..n], key)
      + (if (consumes[n].userId, consumes[n].listingId) == key && TookRun(consumes[n]) then 1 else 0)
  }

  function TakenOn(consumes: seq<ConsumeCall>, l: nat): nat {
    if consumes == [] then 0 else
      var n := |consumes| - 1;
      TakenOn(consumes[..n], l) + (if consumes[n].listingId == l && TookRun(consumes[n]) then 1 else 0)
  }

  // Those whose bump of the listing's counter has happened.
  function BumpedOn(consumes: seq<ConsumeCall>, l: nat): nat {
    if consumes == [] then 0 else
      var n := |consumes| - 1;
      BumpedOn(consumes[..n], l) + (if consumes[n].listingId == l && consumes[n].stage == Done then 1 else 0)
  }

  function Account(runs: map<(nat, nat), Balance>, key: (nat, nat)): Balance {
    if key in runs then runs[key] else Balance(0, 0, 0)
  }

  function ConsumedOn(runs: map<(nat, nat), Balance>, l: nat): map<(nat, nat), int> {
    map key | key in runs && key.1 == l :: runs[key].consumed
  }

  ghost predicate RunsOk(purchases: seq<Purchase>, runs: map<(nat, nat), Balance>, consumes: seq<ConsumeCall>) {
    forall key :: AccountOk(purchases, runs, consumes, key)
  }

  ghost predicate AccountOk(
    purchases: seq<Purchase>, runs: map<(nat, nat), Balance>, consumes: seq<ConsumeCall>, key: (nat, nat))
  {
    var b := Account(runs, key);
    && 0 <= b.remaining && b.remaining + b.consumed == b.granted
    && b.granted == GrantedBy(purchases, key) && b.consumed == TakenBy(consumes, key)
  }

  ghost predicate TotalsOk(listings: seq<Listing>, runs: map<(nat, nat), Balance>, consumes: seq<ConsumeCall>) {
    && (forall i :: 0 <= i < |consumes| ==> consumes[i].listingId < |listings|)
    && (forall l :: 0 <= l < |listings| ==> listings[l].totalRuns == BumpedOn(consumes, l))
    && (forall l: nat :: SumMap(ConsumedOn(runs, l)) == TakenOn(consumes, l))
  }

  // ------------------------------------------------------------------ the invariant

  ghost predicate Inv(s: State) {
    && CatalogueOk(s.listings, s.packs)
    && CartOk(s.listings, s.packs, s.cart, s.nextCartId)
    && SalesOk(s.listings, s.purchases)
    && RunsOk(s.purchases, s.runs, s.consumes)
    && TotalsOk(s.listings, s.runs, s.consumes)
  }

  lemma InitialInv()
    ensures Inv(INITIAL)
  {
    forall l: nat ensures SumMap(ConsumedOn(map[], l)) == 0 {
      assert ConsumedOn(map[], l) == map[];
    }
  }

  // ------------------------------------------------------------------ changes of the catalogue

  lemma GrownKeepsCart(a: seq<Listing>, b: seq<Listing>, packs: seq<Pack>, more: seq<Pack>, cart: seq<CartRow>, next: nat)
    requires CartOk(a, packs, cart, next) && Grown(a, b) && packs <= more
    ensures CartOk(b, more, cart, next)
  {
    hide AllApart;
    forall row | row in cart ensures RowOk(b, more, row) && row.id < next {
      assert RowOk(a, packs, row) && SameTerms(a[row.listingId], b[row.listingId]);
    }
  }

  lemma GrownKeepsSales(a: seq<Listing>, b: seq<Listing>, purchases: seq<Purchase>)
    requires SalesOk(a, purchases) && Grown(a, b)
    requires forall l :: 0 <= l < |a| ==> b[l].totalUsers == a[l].totalUsers
    requires forall l :: |a| <= l < |b| ==> b[l].totalUsers == 0
    ensures SalesOk(b, purchases)
  {
    forall i | 0 <= i < |purchases| ensures PurchaseOk(b, purchases[i]) {
      assert PurchaseOk(a, purchases[i]) && SameTerms(a[purchases[i].listingId], b[purchases[i].listingId]);
    }
    forall l | |a| <= l < |b| ensures Buyers(purchases, l) == {} {
      forall i | 0 <= i < |purchases| ensures purchases[i].listingId != l {
        assert PurchaseOk(a, purchases[i]);
      }
    }
  }

  lemma GrownKeepsTotals(a: seq<Listing>, b: seq<Listing>, runs: map<(nat, nat), Balance>, consumes: seq<ConsumeCall>)
    requires TotalsOk(a, runs, consumes) && |a| <= |b|
    requires forall l :: 0 <= l < |a| ==> b[l].totalRuns == a[l].totalRuns
    requires forall l :: |a| <= l < |b| ==> b[l].totalRuns == 0
    ensures TotalsOk(b, runs, consumes)
  {
    forall l: nat | |a| <= l < |b| ensures BumpedOn(consumes, l) == 0 {
      NoBumps(consumes, l);
    }
  }

  lemma NoBumps(consumes: seq<ConsumeCall>, l: nat)
    requires forall i :: 0 <= i < |consumes| ==> consumes[i].listingId != l
    ensures BumpedOn(consumes, l) == 0
  {}

  // A change of status or a soft delete.
  ghost predicate Restated(a: seq<Listing>, b: seq<Listing>) {
    |a| == |b| && forall i :: 0 <= i < |a| ==>
      b[i] == a[i].(status := b[i].status, deleted := b[i].deleted) && (a[i].deleted ==> b[i].deleted)
  }

  lemma {:induction false} ActiveFalls(a: seq<Listing>, b: seq<Listing>, maker: nat)
    requires Restated(a, b)
    ensures ActiveCount(b, maker) <= ActiveCount(a, maker)
  {
    if a != [] {
      ActiveFalls(a[..|a| - 1], b[..|b| - 1], maker);
    }
  }

  lemma RestatedKeeps(s: State, listings: seq<Listing>)
    requires Inv(s) && Restated(s.listings, listings)
    ensures Inv(s.(listings := listings))
  {
    hide RowOk, PurchaseOk, AccountOk, TotalsOk, SalesOk, CartOk;
    assert Grown(s.listings, listings);
    forall maker: nat ensures ActiveCount(listings, maker) <= MAKER_LISTINGS_QUOTA {
      ActiveFalls(s.listings, listings, maker);
    }
    forall i | 0 <= i < |s.packs| ensures PackOk(listings, s.packs[i]) {
      assert PackOk(s.listings, s.packs[i]);
    }
    forall i | 0 <= i < |listings| ensures ListingOk(listings[i]) {
      assert ListingOk(s.listings[i]);
    }
    GrownKeepsCart(s.listings, listings, s.packs, s.packs, s.cart, s.nextCartId);
    GrownKeepsSales(s.listings, listings, s.purchases);
    GrownKeepsTotals(s.listings, listings, s.runs, s.consumes);
  }

  // ------------------------------------------------------------------ create

  lemma LowerTwice(s: string)
    ensures Lower(Lower(s)) == Lower(s)
  {}

  lemma {:induction false} NewPacksActive(packs: seq<Pack>, listingId: nat, inputs: seq<PackInput>, l: nat)
    ensures ActivePacks(packs + NewPacks(listingId, inputs), l)
         == ActivePacks(packs, l) + (if l == listingId then |inputs| else 0)
  {
    var news := NewPacks(listingId, inputs);
    if inputs == [] {
      assert packs + news == packs;
    } else {
      var n := |inputs| - 1;
      assert NewPacks(listingId, inputs[..n]) == news[..n];
      assert (packs + news)[..|packs| + n] == packs + news[..n];
      NewPacksActive(packs, listingId, inputs[..n], l);
    }
  }

  lemma NoPacks(packs: seq<Pack>, l: nat)
    requires forall i :: 0 <= i < |packs| ==> packs[i].listingId != l
    ensures ActivePacks(packs, l) == 0
  {}

  lemma ActivePush(listings: seq<Listing>, row: Listing, maker: nat)
    ensures ActiveCount(listings + [row], maker)
         == ActiveCount(listings, maker) + (if row.maker == maker && !row.deleted then 1 else 0)
  {
    assert (listings + [row])[..|listings|] == listings;
  }

  // The packs of a new listing, behind all others.
  lemma NewPacksKeep(listings: seq<Listing>, packs: seq<Pack>, row: Listing, inputs: seq<PackInput>)
    requires CatalogueOk(listings, packs)
    requires if row.pricing == PER_RUN then RUN_PACKS_MIN <= |inputs| <= RUN_PACKS_MAX else inputs == []
    requires forall i :: 0 <= i < |inputs| ==> 0 < inputs[i].runs && 0 < inputs[i].price
    ensures var all, more := listings + [row], packs + NewPacks(|listings|, inputs);
      && (forall i :: 0 <= i < |more| ==> PackOk(all, more[i]))
      && (forall l :: 0 <= l < |all| && all[l].pricing == PER_RUN ==>
            RUN_PACKS_MIN <= ActivePacks(more, l) <= RUN_PACKS_MAX)
  {
    hide ActiveCount, ListingOk, ActivePacks, SlugsDiffer;
    var all, more, id := listings + [row], packs + NewPacks(|listings|, inputs), |listings|;
    forall i | 0 <= i < |more| ensures PackOk(all, more[i]) {
      if i < |packs| {
        assert PackOk(listings, packs[i]);
      }
    }
    forall l | 0 <= l < |all| && all[l].pricing == PER_RUN
      ensures RUN_PACKS_MIN <= ActivePacks(more, l) <= RUN_PACKS_MAX
    {
      NewPacksActive(packs, id, inputs, l);
      if l == id {
        assert forall i :: 0 <= i < |packs| ==> PackOk(listings, packs[i]);
        NoPacks(packs, l);
      }
    }
  }

  lemma CreateKeepsCatalogue(s: State, maker: nat, dto: ListingInput)
    requires CatalogueOk(s.listings, s.packs) && Create(s, maker, dto).answer.Success?
    ensures var s' := Create(s, maker, dto).state;
      CatalogueOk(s'.listings, s'.packs) && Grown(s.listings, s'.listings) && s.packs <= s'.packs
  {
    hide SlugTaken, Lower, ActiveCount, ActivePacks, PackOk;
    var s', id := Create(s, maker, dto).state, |s.listings|;
    LowerTwice(dto.slug);
    NewPacksKeep(s.listings, s.packs, s'.listings[id], PacksGiven(dto));
    assert s'.packs == s.packs + NewPacks(id, PacksGiven(dto));
    forall m: nat ensures ActiveCount(s'.listings, m) <= MAKER_LISTINGS_QUOTA {
      ActivePush(s.listings, s'.listings[id], m);
    }
  }

  lemma CreateKeeps(s: State, maker: nat, dto: ListingInput)
    requires Inv(s)
    ensures Inv(Create(s, maker, dto).state)
  {
    hide CatalogueOk, CartOk, SalesOk, TotalsOk, RunsOk, PricingShapeOk, SlugTaken, ActiveCount;
    var s' := Create(s, maker, dto).state;
    if Create(s, maker, dto).answer.Success? {
      CreateKeepsCatalogue(s, maker, dto);
      GrownKeepsCart(s.listings, s'.listings, s.packs, s'.packs, s.cart, s.nextCartId);
      GrownKeepsSales(s.listings, s'.listings, s.purchases);
      GrownKeepsTotals(s.listings, s'.listings, s.runs, s.consumes);
    }
  }

  // ------------------------------------------------------------------ the cart's steps

  lemma AddItemKeeps(s: State, userId: nat, listingId: nat, packId: Option<nat>)
    requires Inv(s)
    ensures Inv(AddItem(s, userId, listingId, packId).state)
  {
    hide CatalogueOk, SalesOk, TotalsOk, RunsOk, Owns;
    var s' := AddItem(s, userId, listingId, packId).state;
    if s'.cart != s.cart {
      var n := |s.cart|;
      var row := s'.cart[n];
      assert RowOk(s.listings, s.packs, row);
      forall i | 0 <= i < n ensures Apart(s.cart[i], row) {
        assert s.cart[i] in s.cart;
        assert !HasRow(s.cart, userId, listingId, row.packId);
      }
    }
  }

  lemma {:induction false} WithoutKeeps(cart: seq<CartRow>, userId: nat, id: nat)
    requires AllApart(cart)
    ensures AllApart(Without(cart, userId, id)) && forall row :: row in Without(cart, userId, id) ==> row in cart
  {
    if cart != [] {
      WithoutKeeps(cart[1..], userId, id);
      var rest := Without(cart[1..], userId, id);
      forall i | 0 <= i < |rest| ensures Apart(cart[0], rest[i]) {
        assert rest[i] in cart[1..];
      }
    }
  }

  lemma MembersKeepCart(s: State, cart: seq<CartRow>)
    requires Inv(s) && AllApart(cart) && forall row :: row in cart ==> row in s.cart
    ensures Inv(s.(cart := cart))
  {
    hide RowOk, AllApart, CatalogueOk, SalesOk, TotalsOk, RunsOk;
  }

  lemma RemoveItemKeeps(s: State, userId: nat, id: nat)
    requires Inv(s)
    ensures Inv(RemoveItem(s, userId, id).state)
  {
    hide RowOk, AllApart, CatalogueOk, SalesOk, TotalsOk, RunsOk;
    WithoutKeeps(s.cart, userId, id);
    MembersKeepCart(s, Without(s.cart, userId, id));
  }

  lemma {:induction false} MergeKeeps(s: State, userId: nat, items: seq<Item>)
    requires Inv(s)
    ensures Inv(MergeGuestCart(s, userId, items).state)
  {
    hide Inv, AddItem;
    if items != [] {
      var n := |items| - 1;
      MergeKeeps(s, userId, items[..n]);
      AddItemKeeps(MergeGuestCart(s, userId, items[..n]).state, userId, items[n].listingId, items[n].packId);
    }
  }

  // ------------------------------------------------------------------ consume

  lemma TakenUpdate(consumes: seq<ConsumeCall>, i: nat, stage: Stage, key: (nat, nat))
    requires i < |consumes|
    ensures var hit := (consumes[i].userId, consumes[i].listingId) == key;
      TakenBy(consumes[i := consumes[i].(stage := stage)], key)
      == TakenBy(consumes, key) - (if hit && TookRun(consumes[i]) then 1 else 0)
         + (if hit && TookRun(consumes[i].(stage := stage)) then 1 else 0)
  {
    var n := |consumes| - 1;
    var c := consumes[i].(stage := stage);
    if i < n {
      assert consumes[i := c][..n] == consumes[..n][i := c];
      TakenUpdate(consumes[..n], i, stage, key);
    } else {
      assert consumes[i := c][..n] == consumes[..n];
    }
  }

  lemma ListingCountsUpdate(consumes: seq<ConsumeCall>, i: nat, stage: Stage, l: nat)
    requires i < |consumes|
    ensures var hit, c := consumes[i].listingId == l, consumes[i].(stage := stage);
      && TakenOn(consumes[i := c], l)
         == TakenOn(consumes, l) - (if hit && TookRun(consumes[i]) then 1 else 0) + (if hit && TookRun(c) then 1 else 0)
      && BumpedOn(consumes[i := c], l)
         == BumpedOn(consumes, l) - (if hit && consumes[i].stage == Done then 1 else 0)
            + (if hit && stage == Done then 1 else 0)
  {
    var n := |consumes| - 1;
    var c := consumes[i].(stage := stage);
    if i < n {
      assert consumes[i := c][..n] == consumes[..n][i := c];
      ListingCountsUpdate(consumes[..n], i, stage, l);
    } else {
      assert consumes[i := c][..n] == consumes[..n];
    }
  }

  // A stage change that takes no run and bumps no counter.
  lemma RestageKeeps(s: State, i: nat, stage: Stage)
    requires Inv(s) && i < |s.consumes| && s.consumes[i].stage != Done && stage != Done
    requires TookRun(s.consumes[i]) == TookRun(s.consumes[i].(stage := stage))
    ensures Inv(s.(consumes := s.consumes[i := s.consumes[i].(stage := stage)]))
  {
    hide CatalogueOk, CartOk, SalesOk;
    var consumes := s.consumes[i := s.consumes[i].(stage := stage)];
    forall key: (nat, nat) ensures AccountOk(s.purchases, s.runs, consumes, key) {
      TakenUpdate(s.consumes, i, stage, key);
      assert AccountOk(s.purchases, s.runs, s.consumes, key);
    }
    forall l: nat
      ensures TakenOn(consumes, l) == TakenOn(s.consumes, l) && BumpedOn(consumes, l) == BumpedOn(s.consumes, l)
    {
      ListingCountsUpdate(s.consumes, i, stage, l);
    }
  }

  lemma ConsumedPut(runs: map<(nat, nat), Balance>, key: (nat, nat), b: Balance, l: nat)
    ensures SumMap(ConsumedOn(runs[key := b], l))
         == SumMap(ConsumedOn(runs, l)) + (if key.1 == l then b.consumed - Account(runs, key).consumed else 0)
  {
    if key.1 == l {
      assert ConsumedOn(runs[key := b], l) == ConsumedOn(runs, l)[key := b.consumed];
      SumPut(ConsumedOn(runs, l), key, b.consumed);
    } else {
      assert ConsumedOn(runs[key := b], l) == ConsumedOn(runs, l);
    }
  }

  lemma TakeRunKeeps(s: State, i: nat)
    requires Inv(s) && i < |s.consumes| && s.consumes[i].stage == Accepted
    requires var key := (s.consumes[i].userId, s.consumes[i].listingId); key in s.runs && 0 < s.runs[key].remaining
    ensures Inv(StepConsume(s, i))
  {
    hide CatalogueOk, CartOk, SalesOk, ConsumedOn, TakenOn, TakenBy, BumpedOn, GrantedBy;
    var s', c := StepConsume(s, i), s.consumes[i];
    var at := (c.userId, c.listingId);
    forall key: (nat, nat) ensures AccountOk(s'.purchases, s'.runs, s'.consumes, key) {
      TakenUpdate(s.consumes, i, Taken, key);
      assert AccountOk(s.purchases, s.runs, s.consumes, key);
    }
    forall l: nat
      ensures SumMap(ConsumedOn(s'.runs, l)) == TakenOn(s'.consumes, l)
      ensures BumpedOn(s'.consumes, l) == BumpedOn(s.consumes, l)
    {
      ListingCountsUpdate(s.consumes, i, Taken, l);
      ConsumedPut(s.runs, at, s'.runs[at], l);
    }
  }

  lemma BumpKeepsRows(s: State, i: nat)
    requires Inv(s) && i < |s.consumes| && s.consumes[i].stage == Taken
    ensures var s' := StepConsume(s, i);
      && CatalogueOk(s'.listings, s'.packs) && CartOk(s'.listings, s'.packs, s'.cart, s'.nextCartId)
      && SalesOk(s'.listings, s'.purchases)
  {
    hide CatalogueOk, CartOk, SalesOk, RunsOk, TotalsOk;
    var s' := StepConsume(s, i);
    CountersKeepCatalogue(s.listings, s'.listings, s.packs);
    assert Grown(s.listings, s'.listings);
    GrownKeepsCart(s.listings, s'.listings, s.packs, s.packs, s.cart, s.nextCartId);
    GrownKeepsSales(s.listings, s'.listings, s.purchases);
  }

  lemma BumpKeeps(s: State, i: nat)
    requires Inv(s) && i < |s.consumes| && s.consumes[i].stage == Taken
    ensures Inv(StepConsume(s, i))
  {
    hide CatalogueOk, CartOk, SalesOk, ConsumedOn, TakenOn, TakenBy, BumpedOn, GrantedBy;
    var s', c := StepConsume(s, i), s.consumes[i];
    BumpKeepsRows(s, i);
    forall key: (nat, nat) ensures AccountOk(s'.purchases, s'.runs, s'.consumes, key) {
      TakenUpdate(s.consumes, i, Done, key);
      assert AccountOk(s.purchases, s.runs, s.consumes, key);
    }
    forall l: nat
      ensures TakenOn(s'.consumes, l) == TakenOn(s.consumes, l)
      ensures BumpedOn(s'.consumes, l) == BumpedOn(s.consumes, l) + (if l == c.listingId then 1 else 0)
    {
      ListingCountsUpdate(s.consumes, i, Done, l);
    }
  }

  lemma CountersKeepCatalogue(a: seq<Listing>, b: seq<Listing>, packs: seq<Pack>)
    requires CatalogueOk(a, packs) && |a| == |b|
    requires forall i :: 0 <= i < |a| ==> b[i] == a[i].(totalUsers := b[i].totalUsers, totalRuns := b[i].totalRuns)
    ensures CatalogueOk(b, packs)
  {
    forall maker: nat ensures ActiveCount(b, maker) == ActiveCount(a, maker) {
      SameActive(a, b, maker);
    }
    forall i | 0 <= i < |packs| ensures PackOk(b, packs[i]) {
      assert PackOk(a, packs[i]);
    }
    forall i | 0 <= i < |b| ensures ListingOk(b[i]) {
      assert ListingOk(a[i]);
    }
  }

  lemma {:induction false} SameActive(a: seq<Listing>, b: seq<Listing>, maker: nat)
    requires |a| == |b| && forall i :: 0 <= i < |a| ==> b[i].maker == a[i].maker && b[i].deleted == a[i].deleted
    ensures ActiveCount(b, maker) == ActiveCount(a, maker)
  {
    if a != [] {
      SameActive(a[..|a| - 1], b[..|b| - 1], maker);
    }
  }

  lemma StepConsumeKeeps(s: State, i: nat)
    requires Inv(s) && i < |s.consumes|
    ensures Inv(StepConsume(s, i))
  {
    hide Inv;
    var c := s.consumes[i];
    var key := (c.userId, c.listingId);
    match c.stage
    case Accepted =>
      if key in s.runs && 0 < s.runs[key].remaining { TakeRunKeeps(s, i); } else { RestageKeeps(s, i, Refused); }
    case Taken => BumpKeeps(s, i);
    case _ =>
  }

  lemma CrashConsumeKeeps(s: State, i: nat)
    requires Inv(s) && i < |s.consumes|
    ensures Inv(CrashConsume(s, i))
  {
    hide Inv;
    match s.consumes[i].stage
    case Accepted => RestageKeeps(s, i, Refused);
    case Taken => RestageKeeps(s, i, Lost);
    case _ =>
  }

  lemma BeginConsumeKeeps(s: State, userId: nat, listingId: nat, keyMatches: bool)
    requires Inv(s)
    ensures Inv(BeginConsume(s, userId, listingId, keyMatches))
  {
    hide CatalogueOk, CartOk, SalesOk;
    var s' := BeginConsume(s, userId, listingId, keyMatches);
    if s' != s {
      var n := |s.consumes|;
      assert s'.consumes[..n] == s.consumes;
      forall key: (nat, nat) ensures AccountOk(s'.purchases, s'.runs, s'.consumes, key) {
        assert AccountOk(s.purchases, s.runs, s.consumes, key);
      }
    }
  }
}
