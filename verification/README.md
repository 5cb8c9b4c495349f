# Money, marketplace and gatekeeping models

This project models the parts of the platform where correctness is hard, and proves what they keep over
every input or every run.

- **Ledger** (`Ledger`, `LedgerMachine`, `LedgerRuns`, `Pages`, `MoneyPages`): wallets with a stored balance
  and an append-only ledger. `Ledger` holds the atomic operations and the services that write the tables;
  `LedgerMachine` runs any number of transactions step by step under row locks, with crashes anywhere.
- **Callbacks** (`CallbackMachine`, `CallbackFinality`, `CallbackAuthority`, `CallbackSchedules`, `CallbackRuns`):
  gateway callbacks as steps on top of the interleaved ledger. The payment row stays locked from the status update
  to the outer commit, while the credit commits in a transaction of its own and survives a crash of the outer one.
- **Payments, refunds, payouts** (`Money`, `MoneyOutcomes`, `MoneyRuns`, `MoneyFlows`, `MoneyRaces`,
  `MoneyServices`): whole handlers, what each accepts and pays, the invariant every one of them keeps, refunds that
  overlap, and the classes that implement them.
- **Payout decisions** (`PayoutMachine`, `PayoutRaces`): approve, reject, cancel and markPaid as the read and the
  unconditional write they are, any number of them overlapping, beside whole runs of everything else.
- **Marketplace** (`Market`, `MarketInvariant`, `MarketOutcomes`, `MarketCheckout`, `MarketRuns`, `MarketRaces`,
  `MarketServices`):
  listings, cart, the two-loop checkout, and run consumption, whose guarded update and later counter bump interleave
  with everything else.
- **Alerts** (`Alerts`): the fire-and-forget low and depleted alerts of one user on one listing.
- **Rate limiter** (`RateLimit`): the Lua script, the guard around it, and runs of requests on one key.
- **Printing and replay** (`Json`, `StableJson`, `CanonicalJson`, `Idempotency`): both key-sorting printers,
  a parser that reads their text back, and the idempotency cache.
- **IBAN** (`Iban`): normalisation, the check chain, and the modulo 97 arithmetic.

Steps are functions from a state and an event to a state; a run applies a list of events. A service that
updates tables is a class whose methods are proved equal to the step they implement, and the theorems are
about the steps. Every public method of `MoneyServices` and `MarketServices` also requires and keeps the whole
invariant of its tables (`Kept`, `Valid`), so what the invariant says holds between any calls. Methods that only
repeat the guards of their step have no row below. The gateway, clocks, hashing and the handler behind the
interceptor are parameters.

## Where code and expectation differ

- `verifyBalance` reads the stored balance and the sum in two statements, so a commit in between can make it
  report a sound wallet. `LedgerRuns.VerifyBalanceExactly` says when, `VerifyBalanceCanMisreport` shows a run.
- A payment's terminal status is not final while another callback that read it earlier is still under way
  (`CallbackRuns.OverlappingCallbacksOverwrite` is a run). `CallbackFinality.FinalExactly` says exactly when it is.
- `canonicalJSONStringify` fills a JavaScript object, which lists array-index keys first and drops
  `__proto__`. It agrees with the other printer exactly on the values of `CanonicalJson.Plain`;
  `CanonicalJson.PrintersDiffer` shows two others.
- The request text is unambiguous even when the url contains the separator `|`.
- A top-up's reset of the alert key runs after the checkout answered. When it is late, a pack can run out
  without a low alert (`Alerts.LateResetSilencesLow` is a run); `Alerts.LowComesFirstExactly` says when one comes.
- With a limit of 0 and an empty window the rate-limit script asks for the oldest of no entries and fails
  (`RateLimit.FailsExactly`, `FirstRequestFails`).
- Two cart rows for one FREE or ONE_TIME listing are sold twice by one checkout, and only then
  (`MarketRaces.OneOffsStaySingleExactly`). The unique constraint does not prevent such rows, as their pack is
  NULL, so two overlapping `addItem` calls get there (`RacingAddsBuyTwice`); `addItem` run as one step does not.
- Refunds of one payment that summed the earlier ones before any of them wrote can pay out more than was paid
  in (`MoneyRaces.OverlappingRefundsOverpay` is a run), exactly when they do not fit together
  (`OverlappingRefundsFitExactly`).
- Decisions on one payout that overlap can pay the money out twice: rejected, then approved by a handler that
  had read PENDING, then paid (`PayoutRaces.RejectedPayoutIsPaid` is a run). Over every run the tables are sound
  and money is conserved exactly when no write follows one that gave the same payout's money back, and otherwise
  the balances are off by exactly the amounts of the late writes (`OverlapsExactly`). Even with every sum right a
  PAID payout can end REJECTED (`PaidPayoutIsRejected`); `FinalExactly` says when a final status stays.
- A payout's id is drawn before the wallet is locked, so overlapping requests of one user can commit out of id
  order and a later page can show a row the first page's moment did not have. No row of that moment is ever missed
  (`Pages.WalkExactly`); `Pages.OpenDrawsExactly` says when the walk is exact.
- Creates of one maker that overlap can pass the quota (`MarketRaces.OverlappingCreatesPassTheQuota`, and
  `OverlappingCreatesFitExactly` for when). The slug check skips deleted listings but the unique key does not, so
  the slug of a deleted listing ends in an internal error.

## Assumptions

Wallet balances and counters start at 0; ids come from sequences that never repeat; the commission percentage
is between 0 and 100 where a bound depends on it; the clock does not go backwards, and the Node and Redis
clocks agree.

## Model

| member | source | states |
|---|---|---|
| Ledger.ApplySound | apps/api/src/core/ledger/ledger.service.ts:82-293 | credit, debit and transfer each keep every stored balance equal to the signed sum of the wallet's entries and never negative |
| Ledger.ApplyTotal | apps/api/src/core/ledger/ledger.service.ts:82-293 | credit adds its amount to the sum of all balances, debit takes it away, transfer leaves the sum as it was |
| Ledger.ApplyExactly | apps/api/src/core/ledger/ledger.service.ts:82-293 | each operation goes through exactly when the amount is positive, the wallets are there and differ, and the payer holds it; the first failing check is the answer, and only the named balances move |
| Ledger.LedgerService.Credit | apps/api/src/core/ledger/ledger.service.ts:82-128 | the method appends one entry and overwrites one balance exactly as the atomic credit says, and a refusal changes nothing |
| Ledger.LedgerService.Debit | apps/api/src/core/ledger/ledger.service.ts:130-183 | the debit method does exactly the atomic debit, its refusal for insufficient funds included, and a refusal changes nothing |
| Ledger.LedgerService.Transfer | apps/api/src/core/ledger/ledger.service.ts:185-293 | the transfer method writes both entries and both balances as the atomic transfer says, or nothing |
| LedgerMachine.InvDo | apps/api/src/core/ledger/ledger.service.ts:82-293 | every step of every interleaving, crashes included, keeps balances, lock ownership, the validity of locked reads and the order of ids |
| LedgerMachine.CommitIsApply | apps/api/src/core/ledger/ledger.service.ts:89-125 | what a transaction publishes at commit is what its operation does atomically to the tables as they are at that moment |
| LedgerMachine.LedgerTheorem | apps/api/src/core/ledger/ledger.service.ts:82-293 | after any interleaving and any crashes each balance is the sum of the wallet's entries, none is negative, and the state is that of the operations of exactly the committed transactions run one at a time, none of them refused |
| LedgerRuns.RefusalIsSerial | apps/api/src/core/ledger/ledger.service.ts:137-175 | a transaction is refused only with the error the operation would give alone on the committed state, and leaves no trace |
| LedgerRuns.NoDeadlock | apps/api/src/core/ledger/ledger.service.ts:191-212 | while anything is unfinished some transaction can step, because transfer locks the lower wallet id first |
| LedgerRuns.SchedulesAreShort | apps/api/src/core/ledger/ledger.service.ts:82-293 | no scheduler can keep a finite set of transactions busy beyond the steps they have left |
| LedgerRuns.EverythingFinishes | apps/api/src/core/ledger/ledger.service.ts:82-293 | from any reachable state some schedule finishes every transaction |
| LedgerRuns.LaterEntriesAreNewer | apps/api/src/core/ledger/ledger.service.ts:468-483 | within one wallet an entry committed later has a larger id, although ids are drawn before commit |
| LedgerRuns.VerifyBalanceExactly | apps/api/src/core/ledger/ledger.service.ts:309-339 | verifyBalance reports a mismatch exactly when the entries committed between its two reads do not cancel out on that wallet |
| LedgerRuns.VerifyBalanceQuiet | apps/api/src/core/ledger/ledger.service.ts:309-339 | it reports nothing when no entry of the wallet was committed between its two reads |
| LedgerRuns.VerifyBalanceCanMisreport | apps/api/src/core/ledger/ledger.service.ts:309-339 | a concrete run in which a credit between the two reads makes it report a sound wallet |
| Ledger.ReportIsClean | apps/api/src/core/ledger/ledger.service.ts:365-420 | on every sound state all report rows have drift 0, both totals agree and none is flagged, whichever wallets the cap lets through |
| Ledger.ReportFindsDrift | apps/api/src/core/ledger/ledger.service.ts:394-408 | a balance that differs from its entries is counted by a report that is not capped |
| Ledger.ReportExactly | apps/api/src/core/ledger/ledger.service.ts:365-420 | whatever the tables hold, the report shows the first wallets up to the cap, counts exactly the drifting ones it shows, and its totals differ by the sum of the drifts |
| Pages.Walk | apps/api/src/core/ledger/ledger.service.ts:341-363 | a client that follows the cursor comes to an end and is shown rows newest first, none twice, whatever happens to the table between pages |
| Pages.PageExactly | apps/api/src/core/ledger/ledger.service.ts:341-363 | a page holds the newest rows below the cursor, the limit or all there are, says there is more exactly when one is left out, and then points at its own last row |
| Pages.WalkExactly | apps/api/src/core/payments/payments.service.ts:325-347 | when rows are only added, wherever their ids fall, the walk misses no row of its first page's moment, and shows exactly those rows exactly when no row committed later lies below the cursor in use; payouts and ledger entries are paged alike |
| Pages.OpenDrawsExactly | apps/api/src/core/payouts/payouts.service.ts:293-315 | given the ids drawn but not committed at the first page: the walk shows exactly that moment, whatever commits meanwhile, exactly when the first page is the last or no such id is below its cursor |
| Pages.WalletWalk | apps/api/src/core/ledger/ledger.service.ts:341-363 | under every interleaving of ledger transactions between pages the walk over one wallet's entries shows exactly those of its first page's moment, newest first |
| MoneyPages.PaymentsWalk | apps/api/src/core/payments/payments.service.ts:325-347 | while whole handlers run between pages, a walk over a user's payments shows exactly those of its first page's moment, newest first |
| MoneyPages.PayoutsWalk | apps/api/src/core/payouts/payouts.service.ts:293-315 | the same for payouts while whole handlers run between pages |
| Ledger.WalletsService.FindOrCreateForUser | apps/api/src/core/wallets/wallets.service.ts:19-25 | the user's one wallet is returned, opened with balance 0 if there was none, and everything else is untouched |
| CallbackMachine.InvDo | apps/api/src/core/payments/payments.service.ts:218-306 | every step of concurrent callbacks, their crashes and any other ledger traffic keeps the payment, lock and credit invariant |
| CallbackMachine.CreditsAfterLedger | apps/api/src/core/payments/payment-ledger.reconciler.ts:30-74 | the number of credits of a payment changes only when its own credit commits, and then from 0 to 1 |
| CallbackMachine.CreditedExactlyOnce | apps/api/src/core/payments/payments.service.ts:252-277 | over every run at most one credit carries a payment's reference, only for a top-up, for its amount and user; a committed SUCCEEDED top-up has exactly one |
| CallbackAuthority.EveryCreditIsAuthorised | apps/api/src/core/payments/payments.service.ts:218-277 | over every run of interleaved steps each credit of a payment and each status a callback wrote rests on a callback that arrived with the reference the provider gave the payment, and on what the provider answered when asked about that callback |
| CallbackFinality.FinalExactly | apps/api/src/core/payments/payments.service.ts:218-277 | a terminal payment row never changes again, whatever happens, exactly when no callback past its first read can still write another status |
| CallbackFinality.SucceededIsFinalExactly | apps/api/src/core/payments/payments.service.ts:218-277 | for a SUCCEEDED payment: exactly when none of its callbacks is cancelling, verifying or failing |
| CallbackFinality.OverwritesComeFromEarlierReaders | apps/api/src/core/payments/payments.service.ts:219-229 | however long the run, a terminal status is overwritten only by a callback that was past its first read when the status became terminal |
| CallbackFinality.HeldRowStays | apps/api/src/core/payments/payments.service.ts:252-277 | while one callback holds a payment's row, nothing but its own commit changes the status |
| CallbackSchedules.SomethingMoves | apps/api/src/core/payments/payments.service.ts:266-277 | payment row locks and wallet row locks together never block for good: while a callback is unfinished some step changes the state |
| CallbackSchedules.SchedulesAreShort | apps/api/src/core/payments/payments.service.ts:218-306 | without new callbacks or transactions no schedule of effective steps is longer than the work the callbacks and the ledger have left |
| CallbackSchedules.EverythingEnds | apps/api/src/core/payments/payments.service.ts:218-306 | from any reachable state some schedule ends every callback and every ledger transaction |
| CallbackRuns.OverlappingCallbacksOverwrite | apps/api/src/core/payments/payments.service.ts:219-250 | a concrete run in which an overlapping callback turns a SUCCEEDED payment CANCELLED |
| Money.InvDo | apps/api/src/core/payouts/payouts.service.ts:34-291 | every whole handler of payments, refunds, payouts and transfers keeps the invariant that ties each entry to its row and conserves money |
| MoneyOutcomes.InitiateExactly | apps/api/src/core/payments/payments.service.ts:148-216 | a new payment holds what was asked: named by the provider and PENDING, or unnamed and FAILED |
| MoneyOutcomes.CallbackExactly | apps/api/src/core/payments/payments.service.ts:218-277 | only a callback of a PENDING payment with its provider's reference changes anything: it decides that payment, pays a top-up not yet credited to its user alone, and fails exactly when there is nothing to pay; every other answer is stated |
| MoneyOutcomes.PaymentsAreExplained | apps/api/src/core/payments/payments.service.ts:218-277 | over any run from the start every decided payment had a callback with its reference and that outcome, and every credit one that the provider confirmed |
| MoneyOutcomes.RefundExactly | apps/api/src/core/payments/payments.service.ts:383-487 | a request is recorded exactly when the payment succeeded, the amount asked is positive and left, and the provider did not fail; the row is for exactly that amount, COMPLETED exactly when the provider refunded; a top-up's user alone pays exactly that, if the balance bears it; any other request changes nothing |
| MoneyOutcomes.PayoutRequestExactly | apps/api/src/core/payouts/payouts.service.ts:34-110 | a payout is requested exactly when the account is valid, the amount positive and the user's wallet holds it; one PENDING payout of that user, wallet and amount is added and the amount leaves that balance; a refusal changes nothing and carries the first failing check |
| MoneyOutcomes.DecisionExactly | apps/api/src/core/payouts/payouts.service.ts:112-291 | a decision goes through exactly on an existing payout, for cancel the caller's own, in the status it needs; it changes that status only, and rejecting or cancelling pays the amount back |
| MoneyOutcomes.TransferExactly | apps/api/src/core/ledger/ledger.service.ts:185-293 | a transfer takes the amount from the one wallet and gives it to the other, and is refused exactly when a check fails |
| MoneyRuns.MoneyIsConserved | apps/api/src/core/payouts/payouts.service.ts:51-100 | over any run the sum of all balances is top-up credits less refund debits less the amounts of payouts that are PENDING, APPROVED or PAID |
| MoneyRuns.PayoutEntries | apps/api/src/core/payouts/payouts.service.ts:51-291 | each payout has one hold debit of its amount on its wallet and a release credit exactly when it is REJECTED or CANCELLED, then exactly one |
| MoneyRuns.PayoutsAreFinal | apps/api/src/core/payouts/payouts.service.ts:112-291 | over runs of whole handlers REJECTED, CANCELLED and PAID never change, and no payout changes owner, wallet or amount |
| MoneyRuns.PaymentsAreFinal | apps/api/src/core/payments/payments.service.ts:218-250 | callbacks run one after another never move a terminal payment |
| MoneyRuns.RefundGuarantees | apps/api/src/core/payments/payments.service.ts:401-487 | refunds of a payment sum to at most its amount whatever their status, each has at most one debit and of its amount, and a top-up's credit less its refund debits stays between 0 and its amount |
| MoneyRuns.RefundOutcome | apps/api/src/core/payments/payments.service.ts:409-487 | an accepted top-up refund is debited at once; one the wallet cannot bear keeps its row without a debit; every other refusal changes nothing |
| MoneyFlows.TopUpPaysIn | apps/api/src/core/payments/payments.service.ts:148-277 | a new top-up's verified callback puts the amount on the user's balance, and every later callback changes nothing |
| MoneyFlows.CompletionMovesNoMoney | apps/api/src/core/payments/payments.service.ts:503-529 | a refund is completed by hand at most once, and that touches no money and no sum of refunds |
| MoneyFlows.OnlyApprovedPayoutsArePaid | apps/api/src/core/payouts/payouts.service.ts:112-235 | over any run of whole handlers no payout is PAID that was not approved first and marked paid after that |
| MoneyRaces.LateRefundKeepsExactly | apps/api/src/core/payments/payments.service.ts:409-475 | a refund that writes after others have written keeps the tables sound exactly when it would still be admitted then |
| MoneyRaces.OverlappingRefundsFitExactly | apps/api/src/core/payments/payments.service.ts:409-449 | any number of refunds that all summed before any of them wrote stay within the payment, and keep the tables sound, exactly when they would be admitted as one |
| MoneyRaces.OverlappingRefundsTakeOut | apps/api/src/core/payments/payments.service.ts:449-475 | they take out of a top-up's net effect exactly the amounts of those the wallet could bear |
| MoneyRaces.OverlappingRefundsOverpay | apps/api/src/core/payments/payments.service.ts:409-475 | a run from the start after which two full refunds of a top-up of 100 both pass the check, add up to 200, and leave its net effect at -100 |
| PayoutMachine.EnterEffect | apps/api/src/core/payouts/payouts.service.ts:141-186 | the write sets the status, posts a release exactly when it rejects or cancels, and leaves the amount unaccounted for exactly when the money was already back |
| PayoutMachine.WriteKeepsExactly | apps/api/src/core/payouts/payouts.service.ts:122-129 | a write, whoever read what before, keeps the tables sound exactly when the payout still holds its money |
| PayoutRaces.OverlapsExactly | apps/api/src/core/payouts/payouts.service.ts:112-291 | over every run of overlapping decisions beside all other handlers: one release per written rejection or cancellation, balances off by exactly the late writes, and soundness and conservation exactly when no write follows one that gave the same payout's money back |
| PayoutRaces.TwoDecisionsExactly | apps/api/src/core/payouts/payouts.service.ts:112-186 | of two decisions that both read PENDING the tables stay sound exactly when the approval is written first, and otherwise the wallet gains the amount once too often |
| PayoutRaces.WaitingDecisionsExactly | apps/api/src/core/payouts/payouts.service.ts:112-291 | with any number of decisions waiting to write: whatever order they are written or dropped in, the tables stay sound exactly when none meets a payout whose money is back and none that gives money back shares its payout |
| PayoutRaces.FinalExactly | apps/api/src/core/payouts/payouts.service.ts:112-291 | a REJECTED, CANCELLED or PAID payout stays as it is, whatever runs from there on, exactly when no decision that read it earlier waits to write another status |
| PayoutRaces.OneByOneIsWhole | apps/api/src/core/payouts/payouts.service.ts:112-291 | decisions whose write follows their read at once are the whole handlers, over any run |
| PayoutRaces.RejectedPayoutIsPaid | apps/api/src/core/payouts/payouts.service.ts:112-235 | a run from the start: rejected, approved by a handler that read PENDING, paid; the user keeps 100 on the wallet that the tables do not account for |
| PayoutRaces.PaidPayoutIsRejected | apps/api/src/core/payouts/payouts.service.ts:112-235 | a run from the start in which a PAID payout ends REJECTED with its money back on the wallet, every sum being right |
| MoneyServices.PaymentLedgerReconciler.Reconcile | apps/api/src/core/payments/payment-ledger.reconciler.ts:30-74 | credits an uncredited top-up once and does nothing otherwise: tables and answer are those of the whole step |
| MoneyServices.PaymentsService.HandleCallback | apps/api/src/core/payments/payments.service.ts:218-306 | tables and answer are those of the whole callback, which rolls its status back when the credit fails |
| MoneyServices.PaymentsService.Refund | apps/api/src/core/payments/payments.service.ts:383-501 | tables and answer are those of the whole refund, the loop that sums earlier refunds included |
| MoneyServices.PayoutsService.Request | apps/api/src/core/payouts/payouts.service.ts:34-110 | row, hold entry and balance together or nothing; tables and answer are those of the whole step |
| MoneyServices.PayoutsService.Reject | apps/api/src/core/payouts/payouts.service.ts:141-201 | status and release together, for a PENDING payout only; tables and answer are those of the whole step |
| MoneyServices.PayoutsService.Cancel | apps/api/src/core/payouts/payouts.service.ts:237-291 | status and release together, for the owner's PENDING payout only; tables and answer are those of the whole step |
| MarketServices.ListingsService.AssertPricingShape | apps/api/src/modules/agents/services/listings.service.ts:624-690 | the loop accepts exactly the inputs with the promised pricing shape |
| MarketServices.CartService.MergeGuestCart | apps/api/src/modules/agents/services/cart.service.ts:154-177 | the loop merges and reports as adding the items one after another does |
| MarketServices.CheckoutService.RunCheckoutTransaction | apps/api/src/modules/agents/services/checkout.service.ts:136-402 | the two loops leave the tables and the answer of the whole checkout step, and keep the whole marketplace invariant |
| MarketServices.RunsService.Consume | apps/api/src/modules/agents/services/runs.service.ts:47-160 | a consume call with nothing in between is its guarded update followed by the counter bump |
| MarketOutcomes.BeginExactly | apps/api/src/modules/agents/services/runs.service.ts:47-98 | a call goes on exactly on a live, published per-run listing with its key |
| MarketOutcomes.TakeExactly | apps/api/src/modules/agents/services/runs.service.ts:98-124 | such a call takes a run exactly when its account has one left: one less remaining, one more consumed, no other account touched |
| MarketOutcomes.EveryRunIsServed | apps/api/src/modules/agents/services/runs.service.ts:98-124 | however calls interleave with each other and with everything else until the user buys again, an account of n runs serves exactly n of the calls that reach it, or all if they are fewer |
| MarketOutcomes.ConsumeExactly | apps/api/src/modules/agents/services/runs.service.ts:47-160 | a whole call succeeds exactly with a run left, and then the account and the listing's counter move by one; otherwise neither moves |
| MarketRuns.InvDo | apps/api/src/modules/agents/services/checkout.service.ts:136-402 | every marketplace step keeps catalogue, cart, sales, run accounts and counters consistent |
| MarketRuns.RunsAddUp | apps/api/src/modules/agents/services/runs.service.ts:98-145 | over any interleaving of consumes, crashes and checkouts: remaining is never negative, remaining plus consumed is granted, granted is the sum of the user's PER_RUN purchases, consumed is the number of successful calls, and totalRuns plus the calls not yet bumped is the sum over users |
| MarketRuns.OwnershipHolds | apps/api/src/modules/agents/services/checkout.service.ts:221-260 | over any run a user buys a FREE or ONE_TIME listing at most once, nobody buys their own listing, and totalUsers is the number of distinct buyers |
| MarketRaces.OneOffsStaySingleExactly | apps/api/src/modules/agents/services/checkout.service.ts:167-353 | whatever rows the cart holds, a checkout keeps FREE and ONE_TIME listings bought at most once exactly when no two of the user's rows are on the same one |
| MarketRaces.RacingAddsBuyTwice | apps/api/src/modules/agents/services/cart.service.ts:121-129 | from the start: two addItem calls that both read before either creates leave two rows with a NULL pack, and one checkout buys the listing twice |
| MarketRuns.AddingAgainIsHarmless | apps/api/src/modules/agents/services/cart.service.ts:113-129 | adding an item again returns the row it already has and changes nothing |
| MarketOutcomes.AddItemExactly | apps/api/src/modules/agents/services/cart.service.ts:42-139 | adding goes through exactly on a live published listing of another maker, with one of its active packs, or not yet bought; the answer is the user's row, found or new; a refusal changes nothing and carries the first failing check |
| MarketRuns.RemoveItemExactly | apps/api/src/modules/agents/services/cart.service.ts:141-148 | removal succeeds exactly when the user has a row of that id and takes that row only |
| MarketRuns.RemoveUndoesAdd | apps/api/src/modules/agents/services/cart.service.ts:121-148 | taking a freshly added row out again gives the cart back |
| MarketRuns.MergeIsExact | apps/api/src/modules/agents/services/cart.service.ts:154-177 | a merge keeps every earlier row, gives each acceptable item a row with its pack, reports each other item with its reason, and does nothing else |
| MarketCheckout.CheckoutSucceedsExactly | apps/api/src/modules/agents/services/checkout.service.ts:144-293 | checkout goes through exactly when the cart is not empty and every row can be bought |
| MarketCheckout.FailedCheckoutChangesNothing | apps/api/src/modules/agents/services/checkout.service.ts:152-293 | a failed checkout changes no table and reports exactly the unbuyable rows, in cart order, each with its reason |
| MarketCheckout.CheckoutBuysTheCart | apps/api/src/modules/agents/services/checkout.service.ts:295-393 | a successful checkout makes one purchase per row in order at the quoted prices, answers with those lines and their quoted total, grants exactly the runs bought, and empties only that user's cart |
| MarketCheckout.QuoteInAnyOrder | apps/api/src/modules/agents/services/cart-adapter.service.ts:23-66 | the quoted total does not depend on the order in which the adapter lists rows added at the same time |
| MarketCheckout.RetrySeesEmptyCart | apps/api/src/modules/agents/services/checkout.service.ts:112-134 | a retry after the same user's other checkout won finds an empty cart and buys nothing |
| MarketCheckout.CheckoutCommission | apps/api/src/modules/agents/services/checkout.service.ts:262-263 | over n lines the commission c satisfies percent*total - 100n < 100c <= percent*total, and makers get exactly the rest |
| MarketOutcomes.DefaultCommission | apps/api/src/modules/agents/services/checkout.service.ts:262-263 | without a setting the commission is 20 percent, rounded down line by line |
| MarketRuns.CatalogueHolds | apps/api/src/modules/agents/services/listings.service.ts:558-690 | over runs of whole handlers every listing is still ready for submission, pack prices and runs are positive, no two listings have one slug, deleted ones included, and no maker exceeds the quota |
| MarketOutcomes.CreateExactly | apps/api/src/modules/agents/services/listings.service.ts:558-690 | a listing is created exactly when its pricing shape is right, no listing live or deleted has its slug, and its maker has fewer than fifty live ones; otherwise nothing changes and the first failing check is the answer |
| MarketOutcomes.CreateWrites | apps/api/src/modules/agents/services/listings.service.ts:583-610 | it starts as a draft with exactly the slug, price and packs asked for |
| MarketOutcomes.TransitionExactly | apps/api/src/modules/agents/services/listings.service.ts:49-55 | each transition goes through exactly on a live listing in the one status it leaves, for a submission the maker's own, and changes that status only |
| MarketOutcomes.SuspendedIsOffSale | apps/api/src/modules/agents/services/listings.service.ts:49-55 | until it is unsuspended nobody can add, buy or consume a suspended listing, whatever else happens |
| MarketOutcomes.DeletedIsGone | apps/api/src/modules/agents/services/listings.service.ts:959-963 | a deleted listing is never again added, bought or consumed |
| MarketRaces.OverlappingCreatesFitExactly | apps/api/src/modules/agents/services/listings.service.ts:562-598 | any number of creates that write without checking again keep the maker within the quota exactly when the listings there and the new slugs together fit; slugs stay unique in any case |
| MarketRaces.OverlappingCreatesPassTheQuota | apps/api/src/modules/agents/services/listings.service.ts:572-581 | fifty-one creates that all counted no listings take a maker to fifty-one |
| MarketRuns.EveryLineIsPriced | apps/api/src/modules/agents/services/checkout.service.ts:193-263 | a line is sold at more than 0 unless FREE, grants runs exactly when PER_RUN, and the fallback price of a one-time line is never used |
| MarketRuns.OnlyReviewedListingsSell | apps/api/src/modules/agents/services/listings.service.ts:694-800 | whatever is sold was submitted and approved before |
| Alerts.LowAlertsAreADayApart | apps/api/src/modules/agents/services/runs.service.ts:226-241 | whatever the interleaving, two RUNS_LOW alerts with no reset between them are more than 24 hours apart |
| Alerts.DepletedOncePerTopUp | apps/api/src/modules/agents/services/runs.service.ts:194-204 | each top-up leads to at most one RUNS_DEPLETED alert, however late it is sent |
| Alerts.LowExactly | apps/api/src/modules/agents/services/runs.service.ts:206-241 | after a reset, however consumes and dispatches interleave, a RUNS_LOW of the newest top-up has been sent exactly when one had been before or a dispatch that saw 1 up to the threshold of runs has finished since |
| Alerts.LowComesFirstExactly | apps/api/src/modules/agents/services/runs.service.ts:206-241 | over runs from the start with such a reset: a RUNS_LOW of the same top-up precedes the RUNS_DEPLETED exactly when one was sent before the reset or such a dispatch has finished between the reset and the RUNS_DEPLETED |
| Alerts.LowComesBeforeDepleted | apps/api/src/modules/agents/services/runs.service.ts:206-241 | when resets and dispatches go through at once, a RUNS_LOW precedes the RUNS_DEPLETED of the same top-up exactly when that top-up left at least two runs |
| Alerts.LateResetSilencesLow | apps/api/src/modules/agents/services/checkout.service.ts:96-110 | a run from the start in which a late reset lets a pack of two run out without any RUNS_LOW of its own |
| Alerts.ThresholdNotifications.Dispatch | apps/api/src/modules/agents/services/runs.service.ts:188-242 | a dispatch with nothing in between sends and claims as its steps do |
| Alerts.DispatchExactly | apps/api/src/modules/agents/services/runs.service.ts:188-242 | a dispatch that saw no run left sends RUNS_DEPLETED; one that saw at most a tenth of the newest pack, rounded up, claims the key, which succeeds exactly when it is free, holds it for 24 hours and sends RUNS_LOW |
| RateLimit.RunIsFaithful | apps/api/src/common/middleware/rate-limit.middleware.ts:33-55 | pruning and expiry never lose a live entry: the key always shows exactly the admissions of the last window |
| RateLimit.AdmitsByRecentCount | apps/api/src/common/middleware/rate-limit.middleware.ts:40-54 | a request is admitted exactly when fewer than its limit were admitted in the last window |
| RateLimit.FailsExactly | apps/api/src/common/middleware/rate-limit.middleware.ts:43-47 | the script fails exactly on a limit of 0 with nothing in the window |
| RateLimit.FirstRequestFails | apps/api/src/common/middleware/rate-limit.middleware.ts:43-47 | the first request under a limit of 0 makes it fail |
| RateLimit.NoWindowOverflows | apps/api/src/common/middleware/rate-limit.middleware.ts:33-55 | no window-long interval, wherever it starts, holds more admissions than the largest limit |
| RateLimit.DenialNamesATime | apps/api/src/common/middleware/rate-limit.middleware.ts:43-47 | a denied caller gets a reset time after now and within one window |
| RateLimit.AdmissionReply | apps/api/src/common/middleware/rate-limit.middleware.ts:49-54 | an admitted caller is told the limit less the admissions of the window, its own included, and when the oldest of those leaves it |
| RateLimit.RemainingIsExact | apps/api/src/common/middleware/rate-limit.middleware.ts:49-54 | of further such requests at once exactly as many are admitted as the reply says remain |
| RateLimit.ResetFreesASlot | apps/api/src/common/middleware/rate-limit.middleware.ts:49-54 | until the reset time of an admission nothing leaves the window, and from then on less is in it |
| RateLimit.DeniedThenAdmitted | apps/api/src/common/middleware/rate-limit.middleware.ts:43-54 | a retry at or after that time is admitted if nothing came between and no earlier limit was larger |
| RateLimit.RateLimitGuard.CanActivate | apps/api/src/common/middleware/rate-limit.middleware.ts:119-165 | the loop runs the checks in order up to the first that does not admit, and its verdict is the one those replies call for |
| RateLimit.PassesExactly | apps/api/src/common/middleware/rate-limit.middleware.ts:119-165 | a request with checks on different keys passes exactly when each of them admits it on its own |
| RateLimit.HeadersAreMostRestrictive | apps/api/src/common/middleware/rate-limit.middleware.ts:127-162 | the headers describe the first reply with the least remaining |
| Json.PrintThenParse | apps/api/src/common/interceptors/idempotency.interceptor.ts:33-47 | JSON text reads back to its value for every value, escapes and lone surrogates included (RFC 8259 sections 4, 5 and 7) |
| Json.EscapeIsShortest | apps/api/src/common/interceptors/idempotency.interceptor.ts:33-47 | of all ways to write a character the printer takes a shortest one (RFC 8259 section 7) |
| Json.EscapedIsPaired | apps/api/src/common/interceptors/idempotency.interceptor.ts:33-47 | printed strings hold no lone surrogate, and surrogate pairs as they are |
| StableJson.StableReadsBack | apps/api/src/common/interceptors/idempotency.interceptor.ts:33-47 | the key-sorted text reads back to the value up to key order |
| StableJson.StablePrintsKeysInOrder | apps/api/src/common/interceptors/idempotency.interceptor.ts:33-47 | in every object of the printed text, however deep, the keys ascend by code unit |
| StableJson.StableTellsApart | apps/api/src/common/interceptors/idempotency.interceptor.ts:33-47 | two bodies print alike exactly when they are equal up to key order |
| CanonicalJson.Canonicalize | apps/api/src/core/audit/canonical-json.ts:11-26 | the recursion with its filling loop builds the canonical value, index keys and "__proto__" treated as JavaScript objects treat them |
| CanonicalJson.CanonicalJSONStringify | apps/api/src/core/audit/canonical-json.ts:7-9 | the text reads back to the canonical value, and equals the stable text exactly for plain values |
| CanonicalJson.AssignedFields | apps/api/src/core/audit/canonical-json.ts:16-23 | the filled object holds only given keys with their canonical values, never "__proto__", index keys first and ascending |
| CanonicalJson.FilledKeysExactly | apps/api/src/core/audit/canonical-json.ts:16-23 | the filled object keeps every key but "__proto__", index keys first and ascending as numbers, the others in sorted order |
| CanonicalJson.IndexKeysExactly | apps/api/src/core/audit/canonical-json.ts:16-23 | index keys are the decimal texts of 0 to 4294967294 |
| CanonicalJson.PrintersAgreeExactly | apps/api/src/core/audit/canonical-json.ts:7-26 | the canonical text equals the stable text exactly for values with no "__proto__" key and no index key that sorts behind a key it would precede in an object |
| CanonicalJson.PrintersDiffer | apps/api/src/core/audit/canonical-json.ts:16-23 | an object with the keys "10" and "2", and one with the key "__proto__", on which the two texts differ |
| CanonicalJson.OrdinaryKeysAgree | apps/api/src/core/audit/canonical-json.ts:7-26 | in particular for values without index keys and "__proto__" |
| Idempotency.RequestTextTellsApart | apps/api/src/common/interceptors/idempotency.interceptor.ts:49-52 | two requests have the same hashed text exactly when method, url and body agree, whatever characters the url holds |
| Idempotency.PayloadReadsBack | apps/api/src/common/interceptors/idempotency.interceptor.ts:97-131 | the cached payload reads back to its hash, status and body |
| Idempotency.RepeatsReplay | apps/api/src/common/interceptors/idempotency.interceptor.ts:94-115 | for 24 hours after a success the same request gets the stored status and body, and any other request under the key is refused |
| Idempotency.HandlerRunsExactlyWhen | apps/api/src/common/interceptors/idempotency.interceptor.ts:94-141 | a keyed call runs its handler exactly when no call under its key succeeded in the last 24 hours |
| Idempotency.SucceedsOnce | apps/api/src/common/interceptors/idempotency.interceptor.ts:94-141 | two successes under one key are more than 24 hours apart |
| Idempotency.KeylessIsRefused | apps/api/src/common/interceptors/idempotency.interceptor.ts:82-91 | a call is asked for a key exactly when it has none, and only a handler that ran to success writes the cache |
| Idempotency.RanAnswers | apps/api/src/common/interceptors/idempotency.interceptor.ts:117-141 | a handler that ran answers its body under the route's own status, or 201 for POST and 200 otherwise, and only its key is written, for 24 hours |
| Iban.BigMod97 | packages/persian-utils/src/iban.ts:34-40 | the loop returns the decimal value modulo 97, for any length |
| Iban.IsValidIranianIban | packages/persian-utils/src/iban.ts:6-32 | the chain of checks accepts exactly the numbers of the stated form whose rearranged value is 1 modulo 97 |
| Iban.AcceptsExactly | packages/persian-utils/src/iban.ts:6-32 | accepted are exactly the inputs whose normal form is IR, two check digits and 22 account digits, not all zeros, with the check digits of ISO 13616-1, modulo 97 |
| Iban.NormalizeExactly | packages/persian-utils/src/iban.ts:9 | white space around the input and letter case make no difference |
| Iban.OneCharacterIsDetected | packages/persian-utils/src/iban.ts:20-32 | two accepted inputs never differ in a single character of their normal form (MOD 97-10 of ISO/IEC 7064) |
| Iban.SwapIsDetected | packages/persian-utils/src/iban.ts:20-32 | swapping any two unequal digits of an accepted number gives a rejected one |

## Left out

- Alerts.LowComesBeforeDepleted: covers only runs in which every reset and dispatch goes through at once, because
  its exact form fails otherwise; `Alerts.LowComesFirstExactly` states what holds under interleaving.
- Gateway, SMS, e-mail, file, Redis and Postgres clients; web pages, controllers, guards and schemas; audit
  records, analytics events and notification text.
- Payment purpose and user lookup in `initiate`, IBAN validation inside the payout handler (a parameter
  there), slugs in place of listing ids in `consume`, and parsing of rate-limit specifications.
- Interleaving inside payout requests, refunds, listing creates and `addItem`: they read sums, rows or counts
  before they write, so the theorems about runs take them whole; `MoneyRaces` and `MarketRaces` state what any
  number of overlapping refunds and creates do. A refund's row and its debit are taken together.
- Transactions that time out in the database while the process goes on: a crash ends the outer and the inner
  transaction of a callback together.
- References that a caller of the ledger invents and that collide with those of payments, refunds or payouts.
- Rate-limit runs that mix different windows on one key, and requests in decreasing time.
- Insignificant white space and the number grammar of JSON: printed text has none, and a number is known by
  its token. BigInt, `undefined` and non-JSON values in the printers.
- Upper-casing beyond ASCII and the dotless i in IBAN input, and beyond ASCII elsewhere.
- Cache writes that fail and calls that overlap, in the theorems about the idempotency cache: a failed write
  is a step of the model, but nothing is promised after one.
- Refund status flips of purchases: no code writes them, so every purchase counts as COMPLETED.
- Catalogue search, reviews, library, downloads, sessions, OTP and the other Persian-text helpers.
