/** What each step of listings, cart and run consumption accepts and writes, for every input. */
module MarketOutcomes {
  import opened Common
  import opened Market
  import opened MarketInvariant
  import opened MarketCheckout
  import opened MarketRuns

  // ------------------------------------------------------------------ consuming runs

  // A call begins exactly on a visible, published per-run listing with its key, and is then the last.
  lemma BeginExactly(s: State, userId: nat, listingId: nat, keyMatches: bool)
    ensures var s' := BeginConsume(s, userId, listingId, keyMatches);
      && s' == s.(consumes := s'.consumes)
      && s'.consumes == s.consumes
           + (if listingId < |s.listings| && !s.listings[listingId].deleted && s.listings[listingId].status == PUBLISHED
                 && s.listings[listingId].pricing == PER_RUN && keyMatches
              then [ConsumeCall(userId, listingId, Accepted)] else [])
  {}

  function OneUsed(b: Balance): Balance {
    Balance(b.remaining - 1, b.granted, b.consumed + 1)
  }

  // A begun call takes a run exactly when its account has one left: one less remaining, one more
  // consumed, and no other account moves.
  lemma TakeExactly(s: State, i: nat)
    requires i < |s.consumes| && s.consumes[i].stage == Accepted
    ensures var s', c := StepConsume(s, i), s.consumes[i];
      var key := (c.userId, c.listingId);
      && |s'.consumes| == |s.consumes|
      && (s'.consumes[i].stage == Taken <==> 0 < Account(s.runs, key).remaining)
      && (s'.consumes[i].stage == Taken || s'.consumes[i].stage == Refused)
      && (forall other :: Account(s'.runs, other) == if other == key && s'.consumes[i].stage == Taken
            then OneUsed(Account(s.runs, key)) else Account(s.runs, other))
      && s' == s.(runs := s'.runs, consumes := s.consumes[i := c.(stage := s'.consumes[i].stage)])
  {}

  // A whole call: it succeeds exactly on a listing it may begin on with a run left, answers the new
  // figures, and counts one run of the listing; without a run left it changes no account and no count.
  lemma ConsumeExactly(s: State, userId: nat, listingId: nat, keyMatches: bool)
    ensures var begun, i, key := BeginConsume(s, userId, listingId, keyMatches), |s.consumes|, (userId, listingId);
      (i < |begun.consumes| ==>
        var taken := StepConsume(begun, i);
        && i < |taken.consumes|
        && var done := StepConsume(taken, i);
           && (taken.consumes[i].stage == Taken <==> 0 < Account(s.runs, key).remaining)
           && (if 0 < Account(s.runs, key).remaining
               then var listing := s.listings[listingId];
                    && Account(done.runs, key) == OneUsed(Account(s.runs, key))
                    && done.listings == s.listings[listingId := listing.(totalRuns := listing.totalRuns + 1)]
               else done.runs == s.runs && done.listings == s.listings))
  {
    var begun, i := BeginConsume(s, userId, listingId, keyMatches), |s.consumes|;
    if i < |begun.consumes| {
      TakeExactly(begun, i);
    }
  }

  // The calls that were turned away, or died before they reached the account.
  function RefusedBy(consumes: seq<ConsumeCall>, key: (nat, nat)): nat {
    if consumes == [] then 0 else
      var n := |consumes| - 1;
      RefusedBy(consumes[..n], key)
      + (if (consumes[n].userId, consumes[n].listingId) == key && consumes[n].stage == Refused then 1 else 0)
  }

  lemma {:induction false} RefusedUpdate(consumes: seq<ConsumeCall>, i: nat, stage: Stage, key: (nat, nat))
    requires i < |consumes|
    ensures var c := consumes[i];
      RefusedBy(consumes[i := c.(stage := stage)], key)
      == RefusedBy(consumes, key)
         + (if (c.userId, c.listingId) == key
            then (if stage == Refused then 1 else 0) - (if c.stage == Refused then 1 else 0) else 0)
  {
    var n := |consumes| - 1;
    var c' := consumes[i].(stage := stage);
    if i < n {
      assert consumes[i := c'][..n] == consumes[..n][i := c'];
      RefusedUpdate(consumes[..n], i, stage, key);
    } else {
      assert consumes[i := c'][..n] == consumes[..n];
    }
  }

  // No checkout of this user, and no call dies.
  predicate Steady(e: Event, userId: nat) {
    !e.ConsumeCrashed? && (e.CheckedOut? ==> e.userId != userId)
  }

  // Of an account that held n runs: each one taken is one less, and a call is only turned away when
  // none is left.
  ghost predicate Served(s: State, s': State, key: (nat, nat)) {
    var n, left := Account(s.runs, key).remaining, Account(s'.runs, key).remaining;
    && TakenBy(s'.consumes, key) + left == TakenBy(s.consumes, key) + n
    && RefusedBy(s.consumes, key) <= RefusedBy(s'.consumes, key)
    && (RefusedBy(s'.consumes, key) > RefusedBy(s.consumes, key) ==> left == 0)
    && 0 <= left
  }

  lemma ServedByStep(s: State, s1: State, i: nat, key: (nat, nat))
    requires Served(s, s1, key) && i < |s1.consumes|
    ensures Served(s, StepConsume(s1, i), key)
  {
    hide TakenBy, RefusedBy;
    var s', c := StepConsume(s1, i), s1.consumes[i];
    if s'.consumes != s1.consumes {
      var stage := s'.consumes[i].stage;
      assert s'.consumes == s1.consumes[i := c.(stage := stage)];
      TakenUpdate(s1.consumes, i, stage, key);
      RefusedUpdate(s1.consumes, i, stage, key);
    }
  }

  lemma ServedByBegin(s: State, s1: State, userId: nat, listingId: nat, keyMatches: bool, key: (nat, nat))
    requires Served(s, s1, key)
    ensures Served(s, BeginConsume(s1, userId, listingId, keyMatches), key)
  {
    var s' := BeginConsume(s1, userId, listingId, keyMatches);
    if s' != s1 {
      assert s'.consumes[..|s1.consumes|] == s1.consumes;
    }
  }

  // Steps of listings, carts and other users' checkouts leave the account and its calls alone.
  lemma AccountUntouched(s: State, e: Event, key: (nat, nat))
    requires Inv(s) && Steady(e, key.0) && !e.ConsumeBegun? && !e.ConsumeStepped?
    ensures Do(s, e).consumes == s.consumes && Account(Do(s, e).runs, key) == Account(s.runs, key)
  {
    hide Inv, CheckItem, SubmissionReady, SlugTaken, ActiveCount, PricingShapeOk, RunCheckout, MergeGuestCart, FindRow;
    match e
    case CheckedOut(user, percent) => CheckoutLeavesAccount(s, user, percent, key);
    case CartMerged(user, items) => MergeTouchesCart(s, user, items);
    case _ =>
  }

  lemma CheckoutLeavesAccount(s: State, userId: nat, setting: Option<int>, key: (nat, nat))
    requires key.0 != userId
    ensures var s' := RunCheckout(s, userId, setting).state;
      s'.consumes == s.consumes && Account(s'.runs, key) == Account(s.runs, key)
  {
    var rows := RowsOf(s.cart, userId);
    var percent := if setting.Some? then setting.value else DEFAULT_COMMISSION_PERCENT;
    BuiltFits(s, userId, rows, percent);
    LinesLeaveAccount(s, userId, Built(s, userId, rows, percent), key);
  }

  lemma {:induction false} LinesLeaveAccount(s: State, userId: nat, lines: seq<Line>, key: (nat, nat))
    requires LinesFit(s, lines) && key.0 != userId
    ensures var s' := WriteLines(s, userId, lines);
      s'.consumes == s.consumes && Account(s'.runs, key) == Account(s.runs, key)
  {
    if lines != [] {
      LinesLeaveAccount(s, userId, lines[..|lines| - 1], key);
    }
  }

  lemma {:induction false} InvRun(s: State, events: seq<Event>)
    requires Inv(s)
    ensures Inv(Run(s, events))
  {
    hide Inv, Do;
    if events != [] {
      InvRun(s, events[..|events| - 1]);
      InvDo(Run(s, events[..|events| - 1]), events[|events| - 1]);
    }
  }

  // However calls interleave with each other and with everything else, until this user buys again:
  // an account of n runs serves exactly n of the calls that reach it, or all of them if they are fewer.
  lemma {:induction false} EveryRunIsServed(s: State, events: seq<Event>, key: (nat, nat))
    requires Inv(s) && forall e :: e in events ==> Steady(e, key.0)
    ensures var s', n := Run(s, events), Account(s.runs, key).remaining;
      var taken, refused := TakenBy(s'.consumes, key) - TakenBy(s.consumes, key),
                            RefusedBy(s'.consumes, key) - RefusedBy(s.consumes, key);
      && Served(s, s', key)
      && taken == (if taken + refused < n then taken + refused else n)
      && Account(s'.runs, key).remaining == n - taken
  {
    hide Inv, Do, TakenBy, RefusedBy;
    if events == [] {
      NotNegative(s, key);
    } else {
      var before, e := events[..|events| - 1], events[|events| - 1];
      var s1 := Run(s, before);
      assert e in events;
      EveryRunIsServed(s, before, key);
      InvRun(s, before);
      ServedBy(s, s1, e, key);
    }
  }

  lemma ServedBy(s: State, s1: State, e: Event, key: (nat, nat))
    requires Inv(s1) && Served(s, s1, key) && Steady(e, key.0)
    ensures Served(s, Do(s1, e), key)
  {
    hide Inv, TakenBy, RefusedBy, StepConsume, BeginConsume;
    match e
    case ConsumeBegun(user, l, keyMatches) => ServedByBegin(s, s1, user, l, keyMatches, key);
    case ConsumeStepped(i) => if i < |s1.consumes| { ServedByStep(s, s1, i, key); }
    case _ => AccountUntouched(s1, e, key);
  }

  lemma NotNegative(s: State, key: (nat, nat))
    requires Inv(s)
    ensures 0 <= Account(s.runs, key).remaining
  {
    assert AccountOk(s.purchases, s.runs, s.consumes, key);
  }

  // ------------------------------------------------------------------ the life of a listing

  predicate IsTransition(e: Event) {
    e.Submitted? || e.Approved? || e.Rejected? || e.Suspended? || e.Unsuspended?
  }

  function FromOf(e: Event): Status
    requires IsTransition(e)
  {
    match e
    case Submitted(_, _) => DRAFT
    case Approved(_) => PENDING_REVIEW
    case Rejected(_) => PENDING_REVIEW
    case Suspended(_) => PUBLISHED
    case Unsuspended(_) => SUSPENDED
  }

  function ToOf(e: Event): Status
    requires IsTransition(e)
  {
    match e
    case Submitted(_, _) => PENDING_REVIEW
    case Approved(_) => PUBLISHED
    case Rejected(_) => Status.REJECTED
    case Suspended(_) => SUSPENDED
    case Unsuspended(_) => PUBLISHED
  }

  function AnswerTo(s: State, e: Event): Result<(), Code>
    requires IsTransition(e)
  {
    match e
    case Submitted(id, maker) => SubmitForReview(s, id, maker).answer
    case Approved(id) => Approve(s, id).answer
    case Rejected(id) => Reject(s, id).answer
    case Suspended(id) => Suspend(s, id).answer
    case Unsuspended(id) => Unsuspend(s, id).answer
  }

  // On reachable tables a transition goes through exactly on a live listing in the status it leaves,
  // for a submission the caller's own, and then changes that status only.
  lemma TransitionExactly(s: State, e: Event)
    requires Inv(s) && IsTransition(e)
    ensures var s', r, l := Do(s, e), AnswerTo(s, e), e.id;
      var reached := l < |s.listings| && !s.listings[l].deleted && (e.Submitted? ==> s.listings[l].maker == e.maker);
      && (r.Success? <==> reached && s.listings[l].status == FromOf(e))
      && (r.Success? ==> s' == s.(listings := s.listings[l := s.listings[l].(status := ToOf(e))]))
      && (r.Failure? ==> s' == s && r.error == if reached then INVALID_STATUS_TRANSITION else LISTING_NOT_FOUND)
  {
    assert e.Submitted? && e.id < |s.listings| ==> ListingOk(s.listings[e.id]);
  }

  // A suspended listing stays so until it is unsuspended: nobody can buy, add or consume it.
  lemma {:induction false} SuspendedIsOffSale(s: State, events: seq<Event>, l: nat)
    requires Inv(s) && l < |s.listings| && s.listings[l].status == SUSPENDED
    requires Unsuspended(l) !in events
    ensures var s' := Run(s, events);
      && l < |s'.listings| && s'.listings[l].status == SUSPENDED
      && (forall userId, row: CartRow :: row.listingId == l ==> !Buyable(s', userId, row))
      && (forall userId, pack :: AddItem(s', userId, l, pack).answer.Failure?)
      && (forall userId, keyMatches :: BeginConsume(s', userId, l, keyMatches) == s')
      && (forall userId :: Owns(s'.purchases, userId, l) <==> Owns(s.purchases, userId, l))
  {
    hide Inv, Do, FindRow;
    if events != [] {
      var before, e := events[..|events| - 1], events[|events| - 1];
      var s1 := Run(s, before);
      assert e in events && forall x :: x in before ==> x in events;
      SuspendedIsOffSale(s, before, l);
      InvRun(s, before);
      StaysSuspended(s1, e, l);
    }
  }

  lemma StaysSuspended(s: State, e: Event, l: nat)
    requires Inv(s) && l < |s.listings| && s.listings[l].status == SUSPENDED && e != Unsuspended(l)
    ensures var s' := Do(s, e);
      && l < |s'.listings| && s'.listings[l].status == SUSPENDED
      && (forall userId :: Owns(s'.purchases, userId, l) <==> Owns(s.purchases, userId, l))
  {
    hide Do, Owns, Inv;
    StatusStep(s, e, l);
    OnlyUnsuspended(s, e, l);
    forall userId: nat ensures Owns(Do(s, e).purchases, userId, l) <==> Owns(s.purchases, userId, l) {
      if Owns(Do(s, e).purchases, userId, l) {
        SaleStep(s, e, userId, l);
      }
      OwnsStays(s, e, userId, l);
    }
  }

  lemma OnlyUnsuspended(s: State, e: Event, l: nat)
    requires Inv(s) && l < |s.listings| && s.listings[l].status == SUSPENDED && l < |Do(s, e).listings|
    ensures Do(s, e).listings[l].status == PUBLISHED ==> e == Unsuspended(l)
  {
    hide Inv, CheckItem, SubmissionReady, SlugTaken, ActiveCount, PricingShapeOk, RunCheckout, MergeGuestCart;
    match e
    case CheckedOut(user, percent) =>
      if RunCheckout(s, user, percent).answer.Success? { CheckoutBuysTheCart(s, user, percent); }
      else { FailedCheckoutChangesNothing(s, user, percent); }
    case CartMerged(user, items) => MergeTouchesCart(s, user, items);
    case _ =>
  }

  // Purchases are only added.
  lemma OwnsStays(s: State, e: Event, userId: nat, l: nat)
    requires Inv(s)
    ensures Owns(s.purchases, userId, l) ==> Owns(Do(s, e).purchases, userId, l)
  {
    hide Inv, CheckItem, SubmissionReady, SlugTaken, ActiveCount, PricingShapeOk, RunCheckout, MergeGuestCart;
    match e
    case CheckedOut(user, percent) =>
      if RunCheckout(s, user, percent).answer.Success? { CheckoutBuysTheCart(s, user, percent); }
      else { FailedCheckoutChangesNothing(s, user, percent); }
    case CartMerged(user, items) => MergeTouchesCart(s, user, items);
    case _ =>
    assert s.purchases <= Do(s, e).purchases;
  }

  // A deleted listing is gone for good.
  lemma {:induction false} DeletedIsGone(s: State, events: seq<Event>, l: nat)
    requires Inv(s) && l < |s.listings| && s.listings[l].deleted
    ensures var s' := Run(s, events);
      && l < |s'.listings| && s'.listings[l].deleted
      && (forall userId, row: CartRow :: row.listingId == l ==> !Buyable(s', userId, row))
      && (forall userId, pack :: AddItem(s', userId, l, pack).answer == Failure(LISTING_NOT_FOUND))
      && (forall userId, keyMatches :: BeginConsume(s', userId, l, keyMatches) == s')
  {
    hide Inv, Do, FindRow;
    if events != [] {
      var before, e := events[..|events| - 1], events[|events| - 1];
      DeletedIsGone(s, before, l);
      InvRun(s, before);
      StaysDeleted(Run(s, before), e, l);
    }
  }

  lemma StaysDeleted(s: State, e: Event, l: nat)
    requires Inv(s) && l < |s.listings| && s.listings[l].deleted
    ensures l < |Do(s, e).listings| && Do(s, e).listings[l].deleted
  {
    hide Inv, CheckItem, SubmissionReady, SlugTaken, ActiveCount, PricingShapeOk, RunCheckout, MergeGuestCart;
    match e
    case CheckedOut(user, percent) =>
      if RunCheckout(s, user, percent).answer.Success? { CheckoutBuysTheCart(s, user, percent); }
      else { FailedCheckoutChangesNothing(s, user, percent); }
    case CartMerged(user, items) => MergeTouchesCart(s, user, items);
    case _ =>
  }

  lemma DeleteExactly(s: State, id: nat)
    ensures var step := SoftDelete(s, id);
      && (step.answer.Success? <==> id < |s.listings|)
      && (step.answer.Success? ==> step.state == s.(listings := s.listings[id := s.listings[id].(deleted := true)]))
      && (step.answer.Failure? ==> step == Step(s, Failure(NOT_FOUND)))
  {}

  // ------------------------------------------------------------------ new listings

  // FREE without a price or packs, ONE_TIME with a price only, PER_RUN with one to five packs only.
  ghost predicate ShapeAsked(dto: ListingInput) {
    var packs := PacksGiven(dto);
    || (dto.pricing == FREE && dto.oneTimePrice == None && packs == [])
    || (dto.pricing == ONE_TIME && packs == [] && exists price :: 0 < price && dto.oneTimePrice == Some(price))
    || (dto.pricing == PER_RUN && dto.oneTimePrice == None && 1 <= |packs| <= 5
        && forall p :: p in packs ==> 0 < p.runs && 0 < p.price)
  }

  lemma ShapeIsAsked(dto: ListingInput)
    ensures PricingShapeOk(dto) <==> ShapeAsked(dto)
  {
    if dto.pricing == ONE_TIME && dto.oneTimePrice.Some? {
      assert dto.oneTimePrice == Some(dto.oneTimePrice.value);
    }
  }

  ghost predicate SlugLive(s: State, slug: string) {
    exists l :: 0 <= l < |s.listings| && s.listings[l].slug == slug && !s.listings[l].deleted
  }

  lemma SlugsAreLower(s: State, slug: string)
    requires Inv(s)
    ensures SlugTaken(s.listings, slug) <==> SlugLive(s, slug)
  {
    hide Lower, ActiveCount, CartOk, SalesOk, RunsOk, TotalsOk, PackOk, ActivePacks, SlugsDiffer;
    forall l | 0 <= l < |s.listings| ensures Lower(s.listings[l].slug) == s.listings[l].slug {
      assert ListingOk(s.listings[l]);
    }
  }

  // On reachable tables a listing is created exactly when the shape is right, no listing, live or
  // deleted, has its slug, and the maker has fewer than fifty live ones; otherwise nothing changes.
  lemma CreateExactly(s: State, maker: nat, dto: ListingInput)
    requires Inv(s)
    ensures var step, slug := Create(s, maker, dto), Lower(dto.slug);
      && (step.answer.Success? <==>
            ShapeAsked(dto) && !SlugStored(s.listings, slug) && ActiveCount(s.listings, maker) < 50)
      && (step.answer.Failure? ==>
            && step.state == s
            && step.answer.error == (if !ShapeAsked(dto) then INVALID_PACKS
                                     else if SlugLive(s, slug) then SLUG_TAKEN
                                     else if 50 <= ActiveCount(s.listings, maker) then MAKER_QUOTA_EXCEEDED
                                     else INTERNAL_ERROR))
  {
    hide Inv, PricingShapeOk, ActiveCount, Lower, ShapeAsked, SlugTaken;
    ShapeIsAsked(dto);
    SlugsAreLower(s, Lower(dto.slug));
    assert SlugLive(s, Lower(dto.slug)) ==> SlugStored(s.listings, Lower(dto.slug));
  }

  // It starts as a draft with exactly what was asked, behind all others.
  lemma CreateWrites(s: State, maker: nat, dto: ListingInput)
    requires Create(s, maker, dto).answer.Success?
    ensures var step, id, packs := Create(s, maker, dto), |s.listings|, PacksGiven(dto);
      && step.answer == Success(id)
      && step.state == s.(listings := step.state.listings, packs := step.state.packs)
      && step.state.listings
         == s.listings + [Listing(maker, Lower(dto.slug), dto.pricing, dto.oneTimePrice, DRAFT, false, 0, 0)]
      && |step.state.packs| == |s.packs| + |packs| && s.packs <= step.state.packs
      && forall k :: 0 <= k < |packs| ==> step.state.packs[|s.packs| + k] == Pack(id, packs[k].runs, packs[k].price, true)
  {
    hide ActiveCount, Lower, SlugTaken, SlugStored, PricingShapeOk, PacksGiven, NewPacks;
    OnlyPerRunHasPacks(dto);
    assert CreateAdmitted(s, maker, dto);
    var packs, step := PacksGiven(dto), InsertListing(s, maker, dto);
    if dto.pricing == PER_RUN {
      assert step.state.packs == s.packs + NewPacks(|s.listings|, packs);
    } else {
      assert step.state.packs == s.packs;
    }
  }

  lemma OnlyPerRunHasPacks(dto: ListingInput)
    ensures PricingShapeOk(dto) && dto.pricing != PER_RUN ==> PacksGiven(dto) == []
  {}

  // ------------------------------------------------------------------ the cart

  // A user may put a listing into the cart: it is live and published and not the user's own, and for
  // a per-run listing the pack is one of its active ones, for any other the user has not bought it.
  ghost predicate Addable(s: State, userId: nat, listingId: nat, packId: Option<nat>) {
    && listingId < |s.listings| && !s.listings[listingId].deleted
    && s.listings[listingId].status == PUBLISHED && s.listings[listingId].maker != userId
    && (s.listings[listingId].pricing == PER_RUN ==>
          exists p :: 0 <= p < |s.packs| && packId == Some(p) && s.packs[p].listingId == listingId && s.packs[p].active)
    && (s.listings[listingId].pricing != PER_RUN ==>
          forall p :: p in s.purchases ==> p.userId != userId || p.listingId != listingId)
  }

  function AddRefusal(s: State, userId: nat, listingId: nat): Code {
    if |s.listings| <= listingId || s.listings[listingId].deleted then LISTING_NOT_FOUND
    else if s.listings[listingId].status != PUBLISHED then LISTING_NOT_PURCHASABLE
    else if s.listings[listingId].maker == userId then CANNOT_BUY_OWN_LISTING
    else if s.listings[listingId].pricing == PER_RUN then INVALID_RUN_PACK
    else ALREADY_OWNED
  }

  // Adding goes through exactly when the user may add the listing. The answer is the user's row of it,
  // which is the one that was there or a new one at the end of the cart; a refusal changes nothing.
  lemma AddItemExactly(s: State, userId: nat, listingId: nat, packId: Option<nat>)
    ensures var step := AddItem(s, userId, listingId, packId);
      && (step.answer.Success? <==> Addable(s, userId, listingId, packId))
      && (step.answer.Failure? ==> step == Step(s, Failure(AddRefusal(s, userId, listingId))))
      && (step.answer.Success? ==>
            var row, pack := step.answer.value, if s.listings[listingId].pricing == PER_RUN then packId else None;
            && row == CartRow(row.id, userId, listingId, pack)
            && (if HasRow(s.cart, userId, listingId, pack) then step.state == s && row in s.cart
                else row.id == s.nextCartId
                     && step.state == s.(cart := s.cart + [row], nextCartId := s.nextCartId + 1)))
  {
    hide HasRow;
    if packId.Some? && SellsPack(s, listingId, packId.value) {
      assert packId == Some(packId.value);
    }
  }

  // ------------------------------------------------------------------ checkout without a setting

  // The commission is then a fifth, rounded down line by line.
  lemma DefaultCommission(s: State, userId: nat)
    requires Inv(s) && RunCheckout(s, userId, None).answer.Success?
    ensures var summary := RunCheckout(s, userId, None).answer.value;
      var lines, total := summary.lines, summary.total;
      20 * total - 100 * |lines| < 100 * SumCommissions(lines) <= 20 * total
  {
    hide Inv, RunCheckout;
    CheckoutCommission(s, userId, None);
  }
}
