/** What each handler of payments, refunds and payouts accepts, writes and pays, for every input. */
module MoneyOutcomes {
  import opened Common
  import opened PaymentTypes
  import opened Ledger
  import opened Money
  import MoneyRuns
  import opened MoneyFlows

  // One user's balance moves by an amount, and nobody else's moves.
  ghost predicate Paid(c: Core, c': Core, userId: nat, amount: int) {
    && Ready(c) && Ready(c')
    && BalanceOf(c', userId) == BalanceOf(c, userId) + amount
    && (forall user :: user != userId ==> BalanceOf(c', user) == BalanceOf(c, user))
  }

  lemma BalanceIs(c: Core, w: nat)
    requires Ready(c) && w in c.db.wallets
    ensures BalanceOf(c, c.db.wallets[w].userId) == c.db.wallets[w].balance
  {
    OnlyWallet(c, w, c.db.wallets[w].userId);
  }

  lemma MovePays(c: Core, w: nat, kind: Kind, amount: int, reference: Reference)
    requires Ready(c) && w in c.db.wallets
    ensures var c' := Move(c, w, kind, amount, reference);
      Paid(c, c', c.db.wallets[w].userId, if kind == CREDIT then amount else -amount)
  {
    var c' := Move(c, w, kind, amount, reference);
    forall v, u | v in c'.db.wallets && u in c'.db.wallets && c'.db.wallets[v].userId == c'.db.wallets[u].userId
      ensures v == u
    {
      assert c.db.wallets[v].userId == c.db.wallets[u].userId;
    }
    BalanceIs(c, w);
    BalanceIs(c', w);
    forall user | user != c.db.wallets[w].userId ensures BalanceOf(c', user) == BalanceOf(c, user) {
      SameBalance(c, c', user, w);
    }
  }

  lemma SameBalance(c: Core, c': Core, user: nat, w: nat)
    requires Ready(c) && Ready(c') && c'.db.wallets.Keys == c.db.wallets.Keys
    requires forall v :: v in c.db.wallets && v != w ==> c'.db.wallets[v] == c.db.wallets[v]
    requires w in c.db.wallets && c.db.wallets[w].userId == c'.db.wallets[w].userId != user
    ensures BalanceOf(c', user) == BalanceOf(c, user)
  {
    var v := OwnedBy(c.db.wallets, user);
    if v.Some? {
      OnlyWallet(c', v.value, user);
    }
  }

  lemma OpeningPays(c: Core, userId: nat)
    requires Ready(c)
    ensures Paid(c, WithWallet(c, userId).1, userId, 0)
  {
    var (w, c') := WithWallet(c, userId);
    forall user ensures BalanceOf(c', user) == BalanceOf(c, user) {
      var v := OwnedBy(c.db.wallets, user);
      if v.Some? {
        OnlyWallet(c', v.value, user);
      } else if user == userId {
        OnlyWallet(c', w, user);
      }
    }
  }

  // ------------------------------------------------------------------ payments

  // A new payment keeps what was asked: named by the provider and pending, or unnamed and failed.
  lemma InitiateExactly(c: Core, userId: nat, amount: int, purpose: string, provider: Option<string>)
    ensures var h, id := Initiate(c, userId, amount, purpose, provider), |c.payments|;
      && h.core == c.(payments := h.core.payments)
      && |h.core.payments| == id + 1 && h.core.payments[..id] == c.payments
      && h.core.payments[id].userId == userId && h.core.payments[id].amount == amount
      && h.core.payments[id].purpose == purpose && h.core.payments[id].providerReference == provider
      && (h.answer.Success? <==> provider.Some?)
      && (h.answer == Success(id) || h.answer == Failure(PAYMENT_INITIATION_FAILED))
      && h.core.payments[id].status == if h.answer.Success? then PaymentStatus.PENDING else FAILED
  {
    assert Initiate(c, userId, amount, purpose, provider).core.payments[..|c.payments|] == c.payments;
  }

  // A callback that may still decide the payment: it is pending, and the reference is the one the
  // provider gave it.
  predicate Genuine(c: Core, id: nat, reference: string) {
    id < |c.payments| && c.payments[id].status == PaymentStatus.PENDING
    && c.payments[id].providerReference == Some(reference)
  }

  // The credit a verified callback makes: a top-up's, once.
  predicate CreditDue(c: Core, id: nat)
    requires id < |c.payments|
  {
    IsTopup(c.payments[id]) && !HasEntry(c.db.entries, PaymentRef(id))
  }

  // Only a genuine callback changes anything: it decides this payment and pays a due credit to its
  // user, and it fails, deciding and paying nothing, exactly when that credit is of no amount.
  lemma CallbackExactly(c: Core, id: nat, reference: string, ok: bool, verified: bool)
    requires Ready(c)
    ensures var h := HandleCallback(c, id, reference, ok, verified);
      && Ready(h.core)
      && (!Genuine(c, id, reference) ==>
            && h.core == c
            && h.answer == (if |c.payments| <= id then Failure(FromLedger(NOT_FOUND))
                            else if c.payments[id].status == PaymentStatus.PENDING then Failure(INVALID_CALLBACK)
                            else Success(c.payments[id].status)))
      && (Genuine(c, id, reference) ==>
            var p, credited := c.payments[id], ok && verified && CreditDue(c, id);
            && h.core.refunds == c.refunds && h.core.payouts == c.payouts
            && (h.answer.Failure? <==> credited && p.amount <= 0)
            && (h.answer.Failure? ==> h.answer == Failure(FromLedger(VALIDATION_ERROR)))
            && (h.answer.Success? ==>
                  h.answer.value == (if !ok then PaymentStatus.CANCELLED else if verified then SUCCEEDED else FAILED))
            && h.core.payments
               == c.payments[id := p.(status := if h.answer.Success? then h.answer.value else PaymentStatus.PENDING)]
            && Paid(c, h.core, p.userId, if credited && 0 < p.amount then p.amount else 0)
            && |h.core.db.entries| == |c.db.entries| + (if credited && 0 < p.amount then 1 else 0))
  {
    hide HasEntry, OneWalletPerUser, FreshWalletId, BalanceOf;
    var h := HandleCallback(c, id, reference, ok, verified);
    if Genuine(c, id, reference) {
      var p := c.payments[id];
      if ok && verified && CreditDue(c, id) {
        CreditPays(c, id);
        SamePay(c, Reconcile(c, id).core, h.core, p.userId, if 0 < p.amount then p.amount else 0);
      } else {
        SamePay(c, c, h.core, p.userId, 0);
      }
    }
  }

  // Rows of the payment tables have no say in the balances.
  lemma SamePay(c: Core, c1: Core, c': Core, userId: nat, amount: int)
    requires Ready(c) && Ready(c1) && c'.db == c1.db && c'.nextWallet == c1.nextWallet
    requires (c1 == c && amount == 0) || Paid(c, c1, userId, amount)
    ensures Paid(c, c', userId, amount)
  {}

  lemma CreditPays(c: Core, id: nat)
    requires Ready(c) && id < |c.payments| && CreditDue(c, id)
    ensures var r, p := Reconcile(c, id), c.payments[id];
      && r.core.payments == c.payments && r.core.refunds == c.refunds && r.core.payouts == c.payouts
      && r.answer == (if 0 < p.amount then Success(()) else Failure(FromLedger(VALIDATION_ERROR)))
      && Paid(c, r.core, p.userId, if 0 < p.amount then p.amount else 0)
      && |r.core.db.entries| == |c.db.entries| + (if 0 < p.amount then 1 else 0)
  {
    hide HasEntry, OneWalletPerUser, FreshWalletId, BalanceOf;
    var p := c.payments[id];
    var (w, c1) := WithWallet(c, p.userId);
    OpeningPays(c, p.userId);
    if 0 < p.amount {
      MovePays(c1, w, CREDIT, p.amount, PaymentRef(id));
    }
  }

  // ------------------------------------------------------------------ who decides a payment

  // A genuine callback of the run, with the provider's word for it.
  ghost predicate Called(events: seq<Event>, id: nat, provider: Option<string>, ok: bool, verified: bool) {
    exists k :: 0 <= k < |events| && events[k].CalledBack? && events[k].id == id && Some(events[k].reference) == provider
      && events[k].ok == ok && (ok ==> events[k].verified == verified)
  }

  predicate Decides(e: Event, c: Core, id: nat, status: PaymentStatus)
    requires id < |c.payments|
  {
    && e.CalledBack? && e.id == id && c.payments[id].providerReference == Some(e.reference)
    && c.payments[id].status == PaymentStatus.PENDING
    && status == if !e.ok then PaymentStatus.CANCELLED else if e.verified then SUCCEEDED else FAILED
  }

  // A status changes only by a callback that carries the payment's reference, to what it says.
  lemma OnlyCallbacksDecide(c: Core, e: Event, id: nat)
    requires Ready(c) && id < |c.payments|
    ensures var c' := Do(c, e);
      && id < |c'.payments| && c'.payments[id] == c.payments[id].(status := c'.payments[id].status)
      && (c'.payments[id].status != c.payments[id].status ==> Decides(e, c, id, c'.payments[id].status))
  {
    hide OneWalletPerUser, FreshWalletId, HasEntry, RefundedSum;
  }

  lemma CalledLater(events: seq<Event>, id: nat, provider: Option<string>, ok: bool, verified: bool)
    requires events != [] && Called(events[1..], id, provider, ok, verified)
    ensures Called(events, id, provider, ok, verified)
  {
    var k :| 0 <= k < |events[1..]| && events[1..][k].CalledBack? && events[1..][k].id == id
      && Some(events[1..][k].reference) == provider && events[1..][k].ok == ok
      && (ok ==> events[1..][k].verified == verified);
    assert events[k + 1] == events[1..][k];
  }

  // The callback that a decided status needs.
  ghost predicate Explained(events: seq<Event>, id: nat, p: Payment) {
    match p.status
    case SUCCEEDED => Called(events, id, p.providerReference, true, true)
    case CANCELLED => Called(events, id, p.providerReference, false, false)
    case FAILED => p.providerReference.None? || Called(events, id, p.providerReference, true, false)
    case PENDING => true
    case EXPIRED => false
  }

  lemma ExplainedLater(events: seq<Event>, id: nat, p: Payment)
    requires events != [] && Explained(events[1..], id, p)
    ensures Explained(events, id, p)
  {
    if p.status == SUCCEEDED {
      CalledLater(events, id, p.providerReference, true, true);
    } else if p.status == PaymentStatus.CANCELLED {
      CalledLater(events, id, p.providerReference, false, false);
    } else if p.status == FAILED && p.providerReference.Some? {
      CalledLater(events, id, p.providerReference, true, false);
    }
  }

  lemma {:induction false} DecidedByCallback(c: Core, events: seq<Event>, id: nat)
    requires Inv(c) && id < |c.payments|
    ensures var c' := MoneyRuns.Run(c, events);
      && id < |c'.payments|
      && (c'.payments[id] == c.payments[id] || Explained(events, id, c'.payments[id]))
    decreases |events|
  {
    hide Do, Inv, Called;
    if events != [] {
      InvIsReady(c);
      InvDo(c, events[0]);
      OnlyCallbacksDecide(c, events[0], id);
      var c1 := Do(c, events[0]);
      DecidedByCallback(c1, events[1..], id);
      var p := MoneyRuns.Run(c, events).payments[id];
      if Explained(events[1..], id, p) {
        ExplainedLater(events, id, p);
      } else if p != c.payments[id] {
        FirstCalls(events, c, id, p.status);
      }
    }
  }

  lemma FirstCalls(events: seq<Event>, c: Core, id: nat, status: PaymentStatus)
    requires events != [] && id < |c.payments| && Decides(events[0], c, id, status)
    ensures Explained(events, id, c.payments[id].(status := status))
  {}

  lemma InvIsReady(c: Core)
    requires Inv(c)
    ensures Ready(c)
  {}

  // Over any run of whole handlers from the start, a payment that is not pending was decided by a
  // callback with the reference its provider gave it, or had none from its provider.
  lemma {:induction false} EveryDecisionIsExplained(c: Core, events: seq<Event>, id: nat)
    requires Inv(c) && |c.payments| <= id
    ensures var c' := MoneyRuns.Run(c, events); id < |c'.payments| ==> Explained(events, id, c'.payments[id])
    decreases |events|
  {
    hide Do, Inv, Called;
    if events != [] {
      InvIsReady(c);
      InvDo(c, events[0]);
      var c1 := Do(c, events[0]);
      if id < |c1.payments| {
        NewPayment(c, events[0], id);
        DecidedByCallback(c1, events[1..], id);
        var p := MoneyRuns.Run(c, events).payments[id];
        if Explained(events[1..], id, p) {
          ExplainedLater(events, id, p);
        }
      } else {
        EveryDecisionIsExplained(c1, events[1..], id);
        if id < |MoneyRuns.Run(c, events).payments| {
          ExplainedLater(events, id, MoneyRuns.Run(c, events).payments[id]);
        }
      }
    }
  }

  lemma NewPayment(c: Core, e: Event, id: nat)
    requires Ready(c) && |c.payments| <= id < |Do(c, e).payments|
    ensures var p := Do(c, e).payments[id];
      p.status == PaymentStatus.PENDING || (p.status == FAILED && p.providerReference.None?)
  {
    hide OneWalletPerUser, FreshWalletId, HasEntry, RefundedSum;
  }

  // No top-up is credited without having succeeded.
  ghost predicate CreditsSucceeded(c: Core) {
    forall k :: 0 <= k < |c.db.entries| && c.db.entries[k].reference.PaymentRef? ==>
      var id := c.db.entries[k].reference.id;
      id < |c.payments| && c.payments[id].status == SUCCEEDED
  }

  lemma CreditsStaySucceeded(c: Core, e: Event)
    requires Ready(c) && CreditsSucceeded(c)
    ensures CreditsSucceeded(Do(c, e))
  {
    hide OneWalletPerUser, FreshWalletId, HasEntry, RefundedSum;
    var c' := Do(c, e);
    forall k | 0 <= k < |c'.db.entries| && c'.db.entries[k].reference.PaymentRef?
      ensures var id := c'.db.entries[k].reference.id; id < |c'.payments| && c'.payments[id].status == SUCCEEDED
    {
      if k < |c.db.entries| {
        assert c'.db.entries[k] == c.db.entries[k];
      }
    }
  }

  lemma {:induction false} RunCreditsSucceeded(c: Core, events: seq<Event>)
    requires Inv(c) && CreditsSucceeded(c)
    ensures CreditsSucceeded(MoneyRuns.Run(c, events))
    decreases |events|
  {
    hide Do, Inv, CreditsSucceeded;
    if events != [] {
      InvIsReady(c);
      InvDo(c, events[0]);
      CreditsStaySucceeded(c, events[0]);
      RunCreditsSucceeded(Do(c, events[0]), events[1..]);
    }
  }

  // Over any run of whole handlers from the start, a payment that is not pending was decided by a
  // callback with the reference its provider gave it, or its provider gave none; and whatever is
  // credited for a payment follows such a callback that the provider confirmed.
  lemma PaymentsAreExplained(events: seq<Event>, id: nat)
    ensures Inv(INITIAL)
    ensures var c := MoneyRuns.Run(INITIAL, events);
      && (id < |c.payments| ==> Explained(events, id, c.payments[id]))
      && (HasEntry(c.db.entries, PaymentRef(id)) ==>
            id < |c.payments| && Called(events, id, c.payments[id].providerReference, true, true))
  {
    hide MoneyRuns.Run, Called;
    MoneyRuns.InitialInv();
    EveryDecisionIsExplained(INITIAL, events, id);
    RunCreditsSucceeded(INITIAL, events);
  }

  // ------------------------------------------------------------------ refunds

  // What is asked: an amount, or everything.
  function AskedOf(c: Core, id: nat, asked: Option<int>): int
    requires id < |c.payments|
  {
    match asked
    case Some(amount) => amount
    case None => c.payments[id].amount
  }

  // The request is recorded: a succeeded payment, an amount that is left of it, and a provider that
  // did not fail.
  predicate Refundable(c: Core, id: nat, asked: Option<int>, provider: ProviderRefund) {
    && id < |c.payments| && c.payments[id].status == SUCCEEDED && provider != ProviderError
    && 0 < AskedOf(c, id, asked) && RefundedSum(c.refunds, id) + AskedOf(c, id, asked) <= c.payments[id].amount
  }

  function RefundRefusal(c: Core, id: nat, asked: Option<int>): MoneyError {
    if |c.payments| <= id then FromLedger(NOT_FOUND)
    else if c.payments[id].status != SUCCEEDED then PAYMENT_NOT_REFUNDABLE
    else if AskedOf(c, id, asked) <= 0 then FromLedger(VALIDATION_ERROR)
    else if c.payments[id].amount < RefundedSum(c.refunds, id) + AskedOf(c, id, asked) then
      REFUND_AMOUNT_EXCEEDS_AVAILABLE
    else PROVIDER_FAILURE
  }

  // A recorded refund is one row of exactly what was asked, COMPLETED exactly when the provider has
  // paid it back. A top-up's takes exactly that off its user's balance, and succeeds exactly when the
  // balance bears it; otherwise nobody's balance moves. Any other request changes nothing.
  lemma RefundExactly(c: Core, id: nat, asked: Option<int>, provider: ProviderRefund)
    requires Ready(c)
    ensures var h := RequestRefund(c, id, asked, provider);
      && (!Refundable(c, id, asked, provider) ==> h == Handled(c, Failure(RefundRefusal(c, id, asked))))
      && (Refundable(c, id, asked, provider) ==>
            var amount, p := AskedOf(c, id, asked), c.payments[id];
            && h.core.payments == c.payments && h.core.payouts == c.payouts
            && h.core.refunds
               == c.refunds + [Refund(id, amount, if provider == Refunded then COMPLETED else PENDING_MANUAL)]
            && (h.answer.Success? <==> !IsTopup(p) || amount <= BalanceOf(c, p.userId))
            && (h.answer == Success(|c.refunds|) || h.answer == Failure(CANNOT_REFUND_INSUFFICIENT_BALANCE))
            && Paid(c, h.core, p.userId, if h.answer.Success? && IsTopup(p) then -amount else 0)
            && (!IsTopup(p) ==> h.core.db == c.db))
  {
    hide OneWalletPerUser, FreshWalletId, BalanceOf, RefundedSum;
    if Refundable(c, id, asked, provider) {
      var amount, p := AskedOf(c, id, asked), c.payments[id];
      var row := Refund(id, amount, if provider == Refunded then COMPLETED else PENDING_MANUAL);
      var c1 := c.(refunds := c.refunds + [row]);
      SamePay(c, c, c1, p.userId, 0);
      if IsTopup(p) {
        DebitPays(c1, p.userId, amount, RefundRef(|c.refunds|));
      }
    }
  }

  // A debit of a user's wallet, opened at 0 if there was none.
  lemma DebitPays(c: Core, userId: nat, amount: int, reference: Reference)
    requires Ready(c) && 0 < amount
    ensures var (w, c1) := WithWallet(c, userId);
      var d := LedgerCall(c1, Debit(w, amount, reference));
      && (d.answer.Success? <==> amount <= BalanceOf(c, userId))
      && (d.answer.Failure? ==> d.answer.error == FromLedger(INSUFFICIENT_FUNDS))
      && Paid(c, d.core, userId, if d.answer.Success? then -amount else 0)
      && d.core.payments == c.payments && d.core.refunds == c.refunds && d.core.payouts == c.payouts
  {
    hide OneWalletPerUser, FreshWalletId, BalanceOf;
    var (w, c1) := WithWallet(c, userId);
    OpeningPays(c, userId);
    BalanceIs(c1, w);
    if amount <= c1.db.wallets[w].balance {
      MovePays(c1, w, DEBIT, amount, reference);
    }
  }

  // ------------------------------------------------------------------ payouts

  predicate PayoutAllowed(c: Core, userId: nat, amount: int, ibanValid: bool) {
    && ibanValid && 0 < amount
    && exists w :: w in c.db.wallets && c.db.wallets[w].userId == userId && amount <= c.db.wallets[w].balance
  }

  predicate HasWallet(c: Core, userId: nat) {
    exists w :: w in c.db.wallets && c.db.wallets[w].userId == userId
  }

  // A payout is requested exactly when the account is valid, the amount positive, and the user has a
  // wallet that holds it. Then one PENDING payout of that user, wallet and amount is added and the
  // amount leaves the balance; otherwise nothing changes, and the first failing check is the answer.
  lemma PayoutRequestExactly(c: Core, userId: nat, amount: int, ibanValid: bool)
    requires Ready(c)
    ensures var h, id := RequestPayout(c, userId, amount, ibanValid), |c.payouts|;
      && (h.answer.Success? <==> PayoutAllowed(c, userId, amount, ibanValid))
      && (h.answer.Failure? ==>
            h == Handled(c, Failure(if !ibanValid then INVALID_IBAN
                                    else if amount <= 0 then FromLedger(VALIDATION_ERROR)
                                    else if !HasWallet(c, userId) then FromLedger(NOT_FOUND)
                                    else FromLedger(INSUFFICIENT_FUNDS))))
      && (h.answer.Success? ==>
            && h.answer == Success(id) && |h.core.payouts| == id + 1 && h.core.payouts[..id] == c.payouts
            && h.core.payments == c.payments && h.core.refunds == c.refunds
            && var p := h.core.payouts[id];
               && p.userId == userId && p.amount == amount && p.status == PayoutStatus.PENDING
               && p.walletId in c.db.wallets && c.db.wallets[p.walletId].userId == userId
               && Paid(c, h.core, userId, -amount))
  {
    hide BalanceOf;
    var owned := OwnedBy(c.db.wallets, userId);
    if w :| w in c.db.wallets && c.db.wallets[w].userId == userId {
      OnlyWallet(c, w, userId);
      if ibanValid && 0 < amount <= c.db.wallets[w].balance {
        var id := |c.payouts|;
        var c1 := c.(payouts := c.payouts + [Payout(userId, w, amount, PayoutStatus.PENDING)]);
        assert c1.payouts[..id] == c.payouts;
        SamePay(c, c, c1, userId, 0);
        MovePays(c1, w, DEBIT, amount, PayoutRef(id));
        assert RequestPayout(c, userId, amount, ibanValid).core == Move(c1, w, DEBIT, amount, PayoutRef(id));
      }
    }
  }

  // ------------------------------------------------------------------ decisions

  // The status a decision needs, the one it gives, and whether it gives the money back.
  function NeededBy(e: Event): PayoutStatus {
    if e.MarkedPaid? then APPROVED else PayoutStatus.PENDING
  }

  function GivenBy(e: Event): PayoutStatus
    requires IsDecision(e)
  {
    match e
    case Approved(_) => APPROVED
    case MarkedPaid(_) => PAID
    case Rejected(_) => REJECTED
    case Cancelled(_, _) => PayoutStatus.CANCELLED
  }

  function AnswerTo(c: Core, e: Event): Result<(), MoneyError>
    requires IsDecision(e)
  {
    match e
    case Approved(id) => Approve(c, id).answer
    case MarkedPaid(id) => MarkPaid(c, id).answer
    case Rejected(id) => Reject(c, id).answer
    case Cancelled(id, userId) => Cancel(c, id, userId).answer
  }

  // The payout is there, and for cancel it is the caller's.
  predicate Reaches(c: Core, e: Event)
    requires IsDecision(e)
  {
    e.id < |c.payouts| && (e.Cancelled? ==> c.payouts[e.id].userId == e.userId)
  }

  // A decision goes through exactly on a payout it reaches in the status it needs. It changes that
  // payout's status only, and rejecting or cancelling pays the amount back to the wallet it came from.
  lemma DecisionExactly(c: Core, e: Event)
    requires Inv(c) && IsDecision(e)
    ensures Ready(c)
    ensures var c', r := Do(c, e), AnswerTo(c, e);
      && (r.Success? <==> Reaches(c, e) && c.payouts[e.id].status == NeededBy(e))
      && (r.Failure? ==>
            && c' == c
            && r.error == (if !Reaches(c, e) then FromLedger(NOT_FOUND)
                           else if e.MarkedPaid? then PAYOUT_NOT_APPROVED else PAYOUT_NOT_PENDING))
      && (r.Success? ==>
            var p := c.payouts[e.id];
            && c'.payouts == c.payouts[e.id := p.(status := GivenBy(e))]
            && c'.payments == c.payments && c'.refunds == c.refunds
            && p.walletId in c.db.wallets
            && Paid(c, c', c.db.wallets[p.walletId].userId, if e.Rejected? || e.Cancelled? then p.amount else 0))
  {
    hide Sound, EntryOk, PaymentOk, RefundOk, Conserved, BalanceOf;
    InvIsReady(c);
    if Reaches(c, e) && c.payouts[e.id].status == NeededBy(e) {
      var p := c.payouts[e.id];
      assert PayoutOk(c, e.id);
      var c1 := SetPayout(c, e.id, GivenBy(e));
      SamePay(c, c, c1, c.db.wallets[p.walletId].userId, 0);
      if e.Rejected? || e.Cancelled? {
        var reference := if e.Rejected? then PayoutRejectedRef(e.id) else PayoutCancelledRef(e.id);
        MovePays(c1, p.walletId, CREDIT, p.amount, reference);
      }
    }
  }

  // ------------------------------------------------------------------ transfers

  // A transfer between two different wallets goes through exactly when both are there and the first
  // holds the amount; it takes it from the one and gives it to the other, and nothing else moves.
  lemma TransferExactly(c: Core, v: nat, w: nat, amount: int, text: string)
    requires Ready(c)
    ensures var h, wallets := TransferFunds(c, v, w, amount, text), c.db.wallets;
      && (h.answer.Success? <==>
            0 < amount && v != w && v in wallets && w in wallets && amount <= wallets[v].balance)
      && (h.answer.Failure? ==>
            h == Handled(c, Failure(FromLedger(if amount <= 0 || v == w then VALIDATION_ERROR
                                               else if v !in wallets || w !in wallets then NOT_FOUND
                                               else INSUFFICIENT_FUNDS))))
      && (h.answer.Success? ==>
            && h.core.payments == c.payments && h.core.refunds == c.refunds && h.core.payouts == c.payouts
            && h.core.db.wallets
               == wallets[v := wallets[v].(balance := wallets[v].balance - amount)]
                         [w := wallets[w].(balance := wallets[w].balance + amount)])
  {}
}
