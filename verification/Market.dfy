/** The agents marketplace: listings, the cart, checkout, and run consumption, as whole steps. */
module Market {
  import opened Common

  datatype Pricing = FREE | ONE_TIME | PER_RUN

  datatype Status = DRAFT | PENDING_REVIEW | PUBLISHED | REJECTED | SUSPENDED

  datatype Listing = Listing(
    maker: nat, slug: string, pricing: Pricing, oneTimePrice: Option<int>,
    status: Status, deleted: bool, totalUsers: nat, totalRuns: nat)

  datatype Pack = Pack(listingId: nat, runs: int, price: int, active: bool)

  datatype CartRow = CartRow(id: nat, userId: nat, listingId: nat, packId: Option<nat>)

  // Every row is COMPLETED: nothing in the repository writes another status.
  datatype Purchase = Purchase(
    userId: nat, listingId: nat, pricing: Pricing, packId: Option<nat>,
    runs: int, amount: int, commission: int, makerEarned: int)

  datatype Balance = Balance(remaining: int, granted: int, consumed: int)

  // How far a consume call has come: its key was accepted; it took a run and the listing's counter
  // waits; it is done; it took nothing; or its process died while the counter waited.
  datatype Stage = Accepted | Taken | Done | Refused | Lost

  datatype ConsumeCall = ConsumeCall(userId: nat, listingId: nat, stage: Stage)

  // Listings, packs and purchases are known by their position; cart rows are in (addedAt, id) order.
  datatype State = State(
    listings: seq<Listing>, packs: seq<Pack>, cart: seq<CartRow>, nextCartId: nat,
    purchases: seq<Purchase>, runs: map<(nat, nat), Balance>, consumes: seq<ConsumeCall>)

  datatype Code =
    | LISTING_NOT_FOUND | LISTING_NOT_PURCHASABLE | CANNOT_BUY_OWN_LISTING | INVALID_RUN_PACK | ALREADY_OWNED
    | NOT_FOUND | INVALID_PACKS | SLUG_TAKEN | MAKER_QUOTA_EXCEEDED | INVALID_STATUS_TRANSITION
    | INVALID_API_KEY | INSUFFICIENT_RUNS | INTERNAL_ERROR

  datatype Step<T> = Step(state: State, answer: Result<T, Code>)

  const INITIAL := State([], [], [], 1, [], map[], [])

  const MAKER_LISTINGS_QUOTA := 50
  const RUN_PACKS_MIN := 1
  const RUN_PACKS_MAX := 5

  // ------------------------------------------------------------------ listings

  datatype PackInput = PackInput(runs: int, price: int)

  datatype ListingInput =
    ListingInput(slug: string, pricing: Pricing, oneTimePrice: Option<int>, runPacks: Option<seq<PackInput>>)

  function PacksGiven(dto: ListingInput): seq<PackInput> {
    if dto.runPacks.Some? then dto.runPacks.value else []
  }

  // assertPricingShape: every failure has the same code.
  predicate PricingShapeOk(dto: ListingInput) {
    match dto.pricing
    case PER_RUN =>
      && RUN_PACKS_MIN <= |PacksGiven(dto)| <= RUN_PACKS_MAX
      && (forall i :: 0 <= i < |PacksGiven(dto)| ==> 0 < PacksGiven(dto)[i].runs && 0 < PacksGiven(dto)[i].price)
      && dto.oneTimePrice.None?
    case ONE_TIME => dto.oneTimePrice.Some? && 0 < dto.oneTimePrice.value && PacksGiven(dto) == []
    case FREE => dto.oneTimePrice.None? && PacksGiven(dto) == []
  }

  function Lower(s: string): (r: string)
    ensures |r| == |s|
  {
    seq(|s|, i requires 0 <= i < |s| => if 'A' <= s[i] <= 'Z' then s[i] - 'A' + 'a' else s[i])
  }

  predicate SlugTaken(listings: seq<Listing>, slug: string) {
    exists i :: 0 <= i < |listings| && !listings[i].deleted && Lower(listings[i].slug) == slug
  }

  function ActiveCount(listings: seq<Listing>, maker: nat): nat {
    if listings == [] then 0 else
      var n := |listings| - 1;
      ActiveCount(listings[..n], maker) + (if listings[n].maker == maker && !listings[n].deleted then 1 else 0)
  }

  function NewPacks(listingId: nat, inputs: seq<PackInput>): (r: seq<Pack>)
    ensures |r| == |inputs|
    ensures forall i :: 0 <= i < |r| ==> r[i] == Pack(listingId, inputs[i].runs, inputs[i].price, true)
  {
    seq(|inputs|, i requires 0 <= i < |inputs| => Pack(listingId, inputs[i].runs, inputs[i].price, true))
  }

  // The unique key on slug counts deleted listings too.
  predicate SlugStored(listings: seq<Listing>, slug: string) {
    exists i :: 0 <= i < |listings| && listings[i].slug == slug
  }

  // What create checks, in its order.
  predicate CreateAdmitted(s: State, maker: nat, dto: ListingInput) {
    PricingShapeOk(dto) && !SlugTaken(s.listings, Lower(dto.slug)) && ActiveCount(s.listings, maker) < MAKER_LISTINGS_QUOTA
  }

  // What create writes; a slug that breaks the unique key fails the transaction.
  function InsertListing(s: State, maker: nat, dto: ListingInput): Step<nat> {
    var slug := Lower(dto.slug);
    if SlugStored(s.listings, slug) then Step(s, Failure(INTERNAL_ERROR))
    else
      var id := |s.listings|;
      var row := Listing(maker, slug, dto.pricing, dto.oneTimePrice, DRAFT, false, 0, 0);
      Step(s.(listings := s.listings + [row],
              packs := if dto.pricing == PER_RUN then s.packs + NewPacks(id, PacksGiven(dto)) else s.packs),
           Success(id))
  }

  function Create(s: State, maker: nat, dto: ListingInput): Step<nat> {
    if CreateAdmitted(s, maker, dto) then InsertListing(s, maker, dto)
    else if !PricingShapeOk(dto) then Step(s, Failure(INVALID_PACKS))
    else if SlugTaken(s.listings, Lower(dto.slug)) then Step(s, Failure(SLUG_TAKEN))
    else Step(s, Failure(MAKER_QUOTA_EXCEEDED))
  }

  function ActivePacks(packs: seq<Pack>, listingId: nat): nat {
    if packs == [] then 0 else
      var n := |packs| - 1;
      ActivePacks(packs[..n], listingId) + (if packs[n].listingId == listingId && packs[n].active then 1 else 0)
  }

  predicate SubmissionReady(s: State, id: nat)
    requires id < |s.listings|
  {
    var l := s.listings[id];
    match l.pricing
    case PER_RUN => RUN_PACKS_MIN <= ActivePacks(s.packs, id) <= RUN_PACKS_MAX
    case ONE_TIME => l.oneTimePrice.Some? && 0 < l.oneTimePrice.value
    case FREE => true
  }

  predicate Visible(s: State, id: nat) {
    id < |s.listings| && !s.listings[id].deleted
  }

  function SetStatus(s: State, id: nat, status: Status): State
    requires id < |s.listings|
  {
    s.(listings := s.listings[id := s.listings[id].(status := status)])
  }

  // lockAndLoad, assertTransition, update.
  function Transition(s: State, id: nat, from: Status, to: Status): Step<()> {
    if !Visible(s, id) then Step(s, Failure(LISTING_NOT_FOUND))
    else if s.listings[id].status != from then Step(s, Failure(INVALID_STATUS_TRANSITION))
    else Step(SetStatus(s, id, to), Success(()))
  }

  function SubmitForReview(s: State, id: nat, maker: nat): Step<()> {
    if !Visible(s, id) || s.listings[id].maker != maker then Step(s, Failure(LISTING_NOT_FOUND))
    else if s.listings[id].status != DRAFT then Step(s, Failure(INVALID_STATUS_TRANSITION))
    else if !SubmissionReady(s, id) then Step(s, Failure(INVALID_PACKS))
    else Step(SetStatus(s, id, PENDING_REVIEW), Success(()))
  }

  function Approve(s: State, id: nat): Step<()> { Transition(s, id, PENDING_REVIEW, PUBLISHED) }

  function Reject(s: State, id: nat): Step<()> { Transition(s, id, PENDING_REVIEW, REJECTED) }

  function Suspend(s: State, id: nat): Step<()> { Transition(s, id, PUBLISHED, SUSPENDED) }

  function Unsuspend(s: State, id: nat): Step<()> { Transition(s, id, SUSPENDED, PUBLISHED) }

  function SoftDelete(s: State, id: nat): Step<()> {
    if id >= |s.listings| then Step(s, Failure(NOT_FOUND))
    else Step(s.(listings := s.listings[id := s.listings[id].(deleted := true)]), Success(()))
  }

  // ------------------------------------------------------------------ the cart

  predicate Owns(purchases: seq<Purchase>, userId: nat, listingId: nat) {
    exists i :: 0 <= i < |purchases| && purchases[i].userId == userId && purchases[i].listingId == listingId
  }

  // A run pack of the listing that can be bought.
  predicate SellsPack(s: State, listingId: nat, packId: nat) {
    packId < |s.packs| && s.packs[packId].listingId == listingId && s.packs[packId].active
  }

  predicate HasRow(cart: seq<CartRow>, userId: nat, listingId: nat, packId: Option<nat>) {
    exists i :: 0 <= i < |cart| && cart[i].userId == userId && cart[i].listingId == listingId && cart[i].packId == packId
  }

  function FindRow(cart: seq<CartRow>, userId: nat, listingId: nat, packId: Option<nat>): (r: Option<CartRow>)
    ensures r.Some? <==> HasRow(cart, userId, listingId, packId)
    ensures r.Some? ==> r.value in cart && r.value == CartRow(r.value.id, userId, listingId, packId)
  {
    if cart == [] then None
    else if cart[0].userId == userId && cart[0].listingId == listingId && cart[0].packId == packId then Some(cart[0])
    else
      assert HasRow(cart, userId, listingId, packId) ==> HasRow(cart[1..], userId, listingId, packId) by {
        if i :| 0 <= i < |cart| && cart[i].userId == userId && cart[i].listingId == listingId && cart[i].packId == packId {
          assert cart[1..][i - 1] == cart[i];
        }
      }
      FindRow(cart[1..], userId, listingId, packId)
  }

  // The validation of addItem: the pack to store in the row.
  function CheckItem(s: State, userId: nat, listingId: nat, packId: Option<nat>): Result<Option<nat>, Code> {
    if !Visible(s, listingId) then Failure(LISTING_NOT_FOUND)
    else if s.listings[listingId].status != PUBLISHED then Failure(LISTING_NOT_PURCHASABLE)
    else if s.listings[listingId].maker == userId then Failure(CANNOT_BUY_OWN_LISTING)
    else if s.listings[listingId].pricing == PER_RUN then
      if packId.None? || !SellsPack(s, listingId, packId.value) then Failure(INVALID_RUN_PACK) else Success(packId)
    else if Owns(s.purchases, userId, listingId) then Failure(ALREADY_OWNED)
    else Success(None)
  }

  // The create of addItem. The unique key (user, listing, pack) refuses a second row of a pack, and
  // the row that is there is returned; rows without a pack never clash, as their key holds a NULL.
  function InsertRow(s: State, userId: nat, listingId: nat, pack: Option<nat>): Step<CartRow> {
    var clash := FindRow(s.cart, userId, listingId, pack);
    if pack.Some? && clash.Some? then Step(s, Success(clash.value))
    else
      var row := CartRow(s.nextCartId, userId, listingId, pack);
      Step(s.(cart := s.cart + [row], nextCartId := s.nextCartId + 1), Success(row))
  }

  function AddItem(s: State, userId: nat, listingId: nat, packId: Option<nat>): Step<CartRow> {
    match CheckItem(s, userId, listingId, packId)
    case Failure(code) => Step(s, Failure(code))
    case Success(pack) =>
      var existing := FindRow(s.cart, userId, listingId, pack);
      if existing.Some? then Step(s, Success(existing.value)) else InsertRow(s, userId, listingId, pack)
  }

  function Without(cart: seq<CartRow>, userId: nat, id: nat): seq<CartRow> {
    if cart == [] then [] else
      (if cart[0].id == id && cart[0].userId == userId then [] else [cart[0]]) + Without(cart[1..], userId, id)
  }

  function RemoveItem(s: State, userId: nat, id: nat): Step<()> {
    var cart := Without(s.cart, userId, id);
    if |cart| == |s.cart| then Step(s, Failure(NOT_FOUND)) else Step(s.(cart := cart), Success(()))
  }

  datatype Item = Item(listingId: nat, packId: Option<nat>)

  datatype MergeFailure = MergeFailure(item: Item, reason: Code)

  datatype Merge = Merge(state: State, merged: nat, failed: seq<MergeFailure>)

  // The guest's items one after another; a refused one is noted and skipped.
  function MergeGuestCart(s: State, userId: nat, items: seq<Item>): (r: Merge)
    ensures r.merged + |r.failed| == |items|
  {
    if items == [] then Merge(s, 0, []) else
      var n := |items| - 1;
      var m := MergeGuestCart(s, userId, items[..n]);
      var step := AddItem(m.state, userId, items[n].listingId, items[n].packId);
      match step.answer
      case Success(_) => Merge(step.state, m.merged + 1, m.failed)
      case Failure(code) => Merge(m.state, m.merged, m.failed + [MergeFailure(items[n], code)])
  }

  // The price the cart adapter quotes for a row.
  function Quote(s: State, row: CartRow): int
    requires row.listingId < |s.listings| && (row.packId.Some? ==> row.packId.value < |s.packs|)
  {
    match s.listings[row.listingId].pricing
    case FREE => 0
    case ONE_TIME =>
      if s.listings[row.listingId].oneTimePrice.Some? then s.listings[row.listingId].oneTimePrice.value else 0
    case PER_RUN => if row.packId.Some? then s.packs[row.packId.value].price else 0
  }

  // ------------------------------------------------------------------ checkout

  const DEFAULT_COMMISSION_PERCENT := 20

  // BigInt division truncates toward zero.
  function TruncDiv(a: int, b: int): int
    requires 0 < b
  {
    if 0 <= a then a / b else -((-a) / b)
  }

  datatype Line = Line(
    row: CartRow, pricing: Pricing, packId: Option<nat>, amount: int, commission: int, makerEarned: int, runs: int)

  datatype LineFailure = LineFailure(cartItemId: nat, listingId: nat, reason: Code)

  function Priced(row: CartRow, pricing: Pricing, packId: Option<nat>, amount: int, runs: int, percent: int): Line {
    var commission := TruncDiv(amount * percent, 100);
    Line(row, pricing, packId, amount, commission, amount - commission, runs)
  }

  // One round of the first loop.
  function BuildLine(s: State, userId: nat, row: CartRow, percent: int): Result<Line, LineFailure> {
    var l := row.listingId;
    if !Visible(s, l) || s.listings[l].status != PUBLISHED then
      Failure(LineFailure(row.id, l, LISTING_NOT_PURCHASABLE))
    else match s.listings[l].pricing
      case PER_RUN =>
        if row.packId.None? || !SellsPack(s, l, row.packId.value) then Failure(LineFailure(row.id, l, INVALID_RUN_PACK))
        else
          var pack := s.packs[row.packId.value];
          Success(Priced(row, PER_RUN, row.packId, pack.price, pack.runs, percent))
      case ONE_TIME =>
        if Owns(s.purchases, userId, l) then Failure(LineFailure(row.id, l, ALREADY_OWNED))
        else
          var amount := if s.listings[l].oneTimePrice.Some? then s.listings[l].oneTimePrice.value else 0;
          Success(Priced(row, ONE_TIME, None, amount, 0, percent))
      case FREE =>
        if Owns(s.purchases, userId, l) then Failure(LineFailure(row.id, l, ALREADY_OWNED))
        else Success(Priced(row, FREE, None, 0, 0, percent))
  }

  function Built(s: State, userId: nat, rows: seq<CartRow>, percent: int): seq<Line> {
    if rows == [] then [] else
      var n := |rows| - 1;
      var r := BuildLine(s, userId, rows[n], percent);
      Built(s, userId, rows[..n], percent) + (if r.Success? then [r.value] else [])
  }

  function Failures(s: State, userId: nat, rows: seq<CartRow>, percent: int): seq<LineFailure> {
    if rows == [] then [] else
      var n := |rows| - 1;
      var r := BuildLine(s, userId, rows[n], percent);
      Failures(s, userId, rows[..n], percent) + (if r.Failure? then [r.error] else [])
  }

  function Grant(runs: map<(nat, nat), Balance>, key: (nat, nat), n: int): map<(nat, nat), Balance> {
    if key in runs then
      var b := runs[key];
      runs[key := b.(remaining := b.remaining + n, granted := b.granted + n)]
    else runs[key := Balance(n, n, 0)]
  }

  function PurchaseFor(userId: nat, line: Line): Purchase {
    Purchase(userId, line.row.listingId, line.pricing, line.packId, line.runs, line.amount,
             line.commission, line.makerEarned)
  }

  // One round of the second loop.
  function WriteLine(s: State, userId: nat, line: Line): State
    requires line.row.listingId < |s.listings|
  {
    var l := line.row.listingId;
    var prior := Owns(s.purchases, userId, l);
    s.(purchases := s.purchases + [PurchaseFor(userId, line)],
       runs := if line.pricing == PER_RUN && line.packId.Some? then Grant(s.runs, (userId, l), line.runs) else s.runs,
       listings := if prior then s.listings
                   else s.listings[l := s.listings[l].(totalUsers := s.listings[l].totalUsers + 1)])
  }

  predicate LinesFit(s: State, lines: seq<Line>) {
    forall i :: 0 <= i < |lines| ==> lines[i].row.listingId < |s.listings|
  }

  function WriteLines(s: State, userId: nat, lines: seq<Line>): (r: State)
    requires LinesFit(s, lines)
    ensures |r.listings| == |s.listings| && |r.purchases| == |s.purchases| + |lines|
  {
    if lines == [] then s else
      var n := |lines| - 1;
      WriteLine(WriteLines(s, userId, lines[..n]), userId, lines[n])
  }

  function RowsOf(cart: seq<CartRow>, userId: nat): (r: seq<CartRow>)
    ensures forall row :: row in r <==> row in cart && row.userId == userId
  {
    if cart == [] then [] else
      var n := |cart| - 1;
      RowsOf(cart[..n], userId) + (if cart[n].userId == userId then [cart[n]] else [])
  }

  function OthersRows(cart: seq<CartRow>, userId: nat): (r: seq<CartRow>)
    ensures forall row :: row in r <==> row in cart && row.userId != userId
  {
    if cart == [] then [] else
      var n := |cart| - 1;
      OthersRows(cart[..n], userId) + (if cart[n].userId == userId then [] else [cart[n]])
  }

  function SumAmounts(lines: seq<Line>): int {
    if lines == [] then 0 else SumAmounts(lines[..|lines| - 1]) + lines[|lines| - 1].amount
  }

  datatype Summary = Summary(firstPurchaseId: nat, lines: seq<Line>, total: int)

  datatype CheckoutError = EMPTY_CART | CHECKOUT_VALIDATION_FAILED(failures: seq<LineFailure>)

  datatype Checkout = Checkout(state: State, answer: Result<Summary, CheckoutError>)

  lemma BuiltFits(s: State, userId: nat, rows: seq<CartRow>, percent: int)
    ensures LinesFit(s, Built(s, userId, rows, percent))
  {}

  function RunCheckout(s: State, userId: nat, setting: Option<int>): Checkout {
    var rows := RowsOf(s.cart, userId);
    var percent := if setting.Some? then setting.value else DEFAULT_COMMISSION_PERCENT;
    var lines, failures := Built(s, userId, rows, percent), Failures(s, userId, rows, percent);
    BuiltFits(s, userId, rows, percent);
    if rows == [] then Checkout(s, Failure(EMPTY_CART))
    else if failures != [] then Checkout(s, Failure(CHECKOUT_VALIDATION_FAILED(failures)))
    else
      Checkout(WriteLines(s, userId, lines).(cart := OthersRows(s.cart, userId)),
               Success(Summary(|s.purchases|, lines, SumAmounts(lines))))
  }

  // ------------------------------------------------------------------ consuming runs

  // Listing and key are checked first; the row is touched later.
  function BeginConsume(s: State, userId: nat, listingId: nat, keyMatches: bool): State {
    if Visible(s, listingId) && s.listings[listingId].status == PUBLISHED
       && s.listings[listingId].pricing == PER_RUN && keyMatches then
      s.(consumes := s.consumes + [ConsumeCall(userId, listingId, Accepted)])
    else s
  }

  // The guarded UPDATE, and later the listing's counter; any number of calls may be in between.
  function StepConsume(s: State, i: nat): State
    requires i < |s.consumes|
  {
    var c := s.consumes[i];
    var key := (c.userId, c.listingId);
    match c.stage
    case Accepted =>
      if key in s.runs && 0 < s.runs[key].remaining then
        var b := s.runs[key];
        s.(runs := s.runs[key := b.(remaining := b.remaining - 1, consumed := b.consumed + 1)],
           consumes := s.consumes[i := c.(stage := Taken)])
      else s.(consumes := s.consumes[i := c.(stage := Refused)])
    case Taken =>
      if c.listingId < |s.listings| then
        var l := s.listings[c.listingId];
        s.(listings := s.listings[c.listingId := l.(totalRuns := l.totalRuns + 1)],
           consumes := s.consumes[i := c.(stage := Done)])
      else s
    case _ => s
  }

  function CrashConsume(s: State, i: nat): State
    requires i < |s.consumes|
  {
    var c := s.consumes[i];
    match c.stage
    case Accepted => s.(consumes := s.consumes[i := c.(stage := Refused)])
    case Taken => s.(consumes := s.consumes[i := c.(stage := Lost)])
    case _ => s
  }

  // ------------------------------------------------------------------ runs of steps

  datatype Event =
    | Created(maker: nat, dto: ListingInput)
    | Submitted(id: nat, maker: nat)
    | Approved(id: nat)
    | Rejected(id: nat)
    | Suspended(id: nat)
    | Unsuspended(id: nat)
    | Deleted(id: nat)
    | ItemAdded(userId: nat, listingId: nat, packId: Option<nat>)
    | ItemRemoved(userId: nat, id: nat)
    | CartMerged(userId: nat, items: seq<Item>)
    | CheckedOut(userId: nat, percent: Option<int>)
    | ConsumeBegun(userId: nat, listingId: nat, keyMatches: bool)
    | ConsumeStepped(i: nat)
    | ConsumeCrashed(i: nat)

  function Do(s: State, e: Event): State {
    match e
    case Created(maker, dto) => Create(s, maker, dto).state
    case Submitted(id, maker) => SubmitForReview(s, id, maker).state
    case Approved(id) => Approve(s, id).state
    case Rejected(id) => Reject(s, id).state
    case Suspended(id) => Suspend(s, id).state
    case Unsuspended(id) => Unsuspend(s, id).state
    case Deleted(id) => SoftDelete(s, id).state
    case ItemAdded(user, l, p) => AddItem(s, user, l, p).state
    case ItemRemoved(user, id) => RemoveItem(s, user, id).state
    case CartMerged(user, items) => MergeGuestCart(s, user, items).state
    case CheckedOut(user, percent) => RunCheckout(s, user, percent).state
    case ConsumeBegun(user, l, keyMatches) => BeginConsume(s, user, l, keyMatches)
    case ConsumeStepped(i) => if i < |s.consumes| then StepConsume(s, i) else s
    case ConsumeCrashed(i) => if i < |s.consumes| then CrashConsume(s, i) else s
  }

  function Run(s: State, events: seq<Event>): State {
    if events == [] then s else Do(Run(s, events[..|events| - 1]), events[|events| - 1])
  }
}
