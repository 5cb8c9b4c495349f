/** Payments, refunds and payouts as whole handlers over the ledger, and what any run of them keeps. */
module Money {
  import opened Common
  import opened PaymentTypes
  import opened Ledger

  datatype RefundStatus = PENDING_MANUAL | COMPLETED

  datatype Refund = Refund(paymentId: nat, amount: int, status: RefundStatus)

  datatype PayoutStatus = PENDING | APPROVED | REJECTED | PAID | CANCELLED

  datatype Payout = Payout(userId: nat, walletId: nat, amount: int, status: PayoutStatus)

  // Payments, refunds and payouts are known by their position, so a new row's id is fresh.
  datatype Core = Core(
    db: Db, nextWallet: nat, nextEntry: nat,
    payments: seq<Payment>, refunds: seq<Refund>, payouts: seq<Payout>)

  datatype MoneyError =
    | FromLedger(error: LedgerError)
    | INVALID_CALLBACK | PAYMENT_INITIATION_FAILED
    | PAYMENT_NOT_REFUNDABLE | REFUND_AMOUNT_EXCEEDS_AVAILABLE | PROVIDER_FAILURE
    | CANNOT_REFUND_INSUFFICIENT_BALANCE | REFUND_NOT_PENDING
    | INVALID_IBAN | PAYOUT_NOT_PENDING | PAYOUT_NOT_APPROVED

  // A handler's answer and the state it leaves.
  datatype Handled<T> = Handled(core: Core, answer: Result<T, MoneyError>)

  // The provider's answer to a refund: done, not done, refund unsupported, or any other failure.
  datatype ProviderRefund = Refunded | NotRefunded | NotSupported | ProviderError

  const INITIAL := Core(Db(map[], []), 1, 1, [], [], [])

  ghost predicate Ready(c: Core) {
    OneWalletPerUser(c.db.wallets) && FreshWalletId(c.db.wallets, c.nextWallet)
  }

  // ------------------------------------------------------------------ pieces of handlers

  function Move(c: Core, w: nat, kind: Kind, amount: int, reference: Reference): Core
    requires w in c.db.wallets
  {
    c.(db := Post(c.db, w, kind, amount, reference, c.nextEntry), nextEntry := c.nextEntry + 1)
  }

  function WithWallet(c: Core, userId: nat): (r: (nat, Core))
    requires Ready(c)
    ensures Ready(r.1) && r.0 in r.1.db.wallets && r.1.db.wallets[r.0].userId == userId
  {
    var (w, wallets) := FindOrCreate(c.db.wallets, userId, c.nextWallet);
    (w, c.(db := c.db.(wallets := wallets),
           nextWallet := if wallets == c.db.wallets then c.nextWallet else c.nextWallet + 1))
  }

  // ledger.credit and ledger.debit, as the handlers call them.
  function LedgerCall(c: Core, op: Op): Handled<()>
    requires !op.Transfer?
  {
    match Apply(c.db, op, c.nextEntry, 0)
    case Success(db) => Handled(c.(db := db, nextEntry := c.nextEntry + 1), Success(()))
    case Failure(e) => Handled(c, Failure(FromLedger(e)))
  }

  function SetPayment(c: Core, id: nat, status: PaymentStatus): Core
    requires id < |c.payments|
  {
    c.(payments := c.payments[id := c.payments[id].(status := status)])
  }

  function SetPayout(c: Core, id: nat, status: PayoutStatus): Core
    requires id < |c.payouts|
  {
    c.(payouts := c.payouts[id := c.payouts[id].(status := status)])
  }

  // What has been asked back on a payment, whatever became of it.
  function RefundedSum(refunds: seq<Refund>, paymentId: nat): int {
    if refunds == [] then 0 else
      var n := |refunds| - 1;
      RefundedSum(refunds[..n], paymentId) + (if refunds[n].paymentId == paymentId then refunds[n].amount else 0)
  }

  // ------------------------------------------------------------------ handlers

  // The row is created first; the provider's answer then either fails it or names it.
  function Initiate(c: Core, userId: nat, amount: int, purpose: string, provider: Option<string>): Handled<nat> {
    var id := |c.payments|;
    var row := Payment(userId, amount, purpose, PaymentStatus.PENDING, provider);
    if provider.None? then
      Handled(c.(payments := c.payments + [row.(status := FAILED)]), Failure(PAYMENT_INITIATION_FAILED))
    else Handled(c.(payments := c.payments + [row]), Success(id))
  }

  // reconcile: check the reference, then credit.
  function Reconcile(c: Core, id: nat): Handled<()>
    requires Ready(c)
  {
    if id >= |c.payments| || HasEntry(c.db.entries, PaymentRef(id)) || !IsTopup(c.payments[id]) then
      Handled(c, Success(()))
    else
      var (w, c1) := WithWallet(c, c.payments[id].userId);
      LedgerCall(c1, Credit(w, c.payments[id].amount, PaymentRef(id)))
  }

  function HandleCallback(c: Core, id: nat, reference: string, ok: bool, verified: bool): Handled<PaymentStatus>
    requires Ready(c)
  {
    if id >= |c.payments| then Handled(c, Failure(FromLedger(NOT_FOUND)))
    else if Terminal(c.payments[id].status) then Handled(c, Success(c.payments[id].status))
    else if c.payments[id].providerReference != Some(reference) then Handled(c, Failure(INVALID_CALLBACK))
    else if !ok then Handled(SetPayment(c, id, PaymentStatus.CANCELLED), Success(PaymentStatus.CANCELLED))
    else if !verified then Handled(SetPayment(c, id, FAILED), Success(FAILED))
    else
      var r := Reconcile(c, id);
      // A failed credit rolls the status back and keeps the wallet that was opened for it.
      if r.answer.Success? then Handled(SetPayment(r.core, id, SUCCEEDED), Success(SUCCEEDED))
      else Handled(r.core, Failure(r.answer.error))
  }

  // What is asked is positive and within what earlier refunds left.
  predicate RefundAdmitted(c: Core, id: nat, amount: int)
    requires id < |c.payments|
  {
    0 < amount <= c.payments[id].amount - RefundedSum(c.refunds, id)
  }

  // The writes of a refund: its row, and for a top-up the debit.
  function RecordRefund(c: Core, id: nat, amount: int, provider: ProviderRefund): (h: Handled<nat>)
    requires Ready(c) && id < |c.payments|
    ensures Ready(h.core) && h.core.payments == c.payments && h.core.payouts == c.payouts
  {
    var r := |c.refunds|;
    var row := Refund(id, amount, if provider == Refunded then COMPLETED else PENDING_MANUAL);
    var c1 := c.(refunds := c.refunds + [row]);
    if !IsTopup(c.payments[id]) then Handled(c1, Success(r))
    else
      var (w, c2) := WithWallet(c1, c.payments[id].userId);
      var d := LedgerCall(c2, Debit(w, amount, RefundRef(r)));
      if d.answer.Success? then Handled(d.core, Success(r))
      else if d.answer.error == FromLedger(INSUFFICIENT_FUNDS) then
        Handled(d.core, Failure(CANNOT_REFUND_INSUFFICIENT_BALANCE))
      else Handled(d.core, Failure(d.answer.error))
  }

  function RequestRefund(c: Core, id: nat, asked: Option<int>, provider: ProviderRefund): Handled<nat>
    requires Ready(c)
  {
    if id >= |c.payments| then Handled(c, Failure(FromLedger(NOT_FOUND)))
    else if c.payments[id].status != SUCCEEDED then Handled(c, Failure(PAYMENT_NOT_REFUNDABLE))
    else
      var amount := if asked.Some? then asked.value else c.payments[id].amount;
      if amount <= 0 then Handled(c, Failure(FromLedger(VALIDATION_ERROR)))
      else if !RefundAdmitted(c, id, amount) then Handled(c, Failure(REFUND_AMOUNT_EXCEEDS_AVAILABLE))
      else if provider == ProviderError then Handled(c, Failure(PROVIDER_FAILURE))
      else RecordRefund(c, id, amount, provider)
  }

  function MarkRefundCompleted(c: Core, id: nat): Handled<()> {
    if id >= |c.refunds| then Handled(c, Failure(FromLedger(NOT_FOUND)))
    else if c.refunds[id].status != PENDING_MANUAL then Handled(c, Failure(REFUND_NOT_PENDING))
    else Handled(c.(refunds := c.refunds[id := c.refunds[id].(status := COMPLETED)]), Success(()))
  }

  function RequestPayout(c: Core, userId: nat, amount: int, ibanValid: bool): Handled<nat>
    requires Ready(c)
  {
    if !ibanValid then Handled(c, Failure(INVALID_IBAN))
    else if amount <= 0 then Handled(c, Failure(FromLedger(VALIDATION_ERROR)))
    else match OwnedBy(c.db.wallets, userId)
      case None => Handled(c, Failure(FromLedger(NOT_FOUND)))
      case Some(w) =>
        if c.db.wallets[w].balance - amount < 0 then Handled(c, Failure(FromLedger(INSUFFICIENT_FUNDS)))
        else
          var id := |c.payouts|;
          var c1 := c.(payouts := c.payouts + [Payout(userId, w, amount, PayoutStatus.PENDING)]);
          Handled(Move(c1, w, DEBIT, amount, PayoutRef(id)), Success(id))
  }

  function Approve(c: Core, id: nat): Handled<()> {
    if id >= |c.payouts| then Handled(c, Failure(FromLedger(NOT_FOUND)))
    else if c.payouts[id].status != PayoutStatus.PENDING then Handled(c, Failure(PAYOUT_NOT_PENDING))
    else Handled(SetPayout(c, id, APPROVED), Success(()))
  }

  function MarkPaid(c: Core, id: nat): Handled<()> {
    if id >= |c.payouts| then Handled(c, Failure(FromLedger(NOT_FOUND)))
    else if c.payouts[id].status != APPROVED then Handled(c, Failure(PAYOUT_NOT_APPROVED))
    else Handled(SetPayout(c, id, PAID), Success(()))
  }

  // Status and release in one transaction: without the wallet row neither happens.
  function Release(c: Core, id: nat, status: PayoutStatus, reference: Reference): Handled<()>
    requires id < |c.payouts|
  {
    var p := c.payouts[id];
    if p.walletId !in c.db.wallets then Handled(c, Failure(FromLedger(NOT_FOUND)))
    else Handled(Move(SetPayout(c, id, status), p.walletId, CREDIT, p.amount, reference), Success(()))
  }

  function Reject(c: Core, id: nat): Handled<()> {
    if id >= |c.payouts| then Handled(c, Failure(FromLedger(NOT_FOUND)))
    else if c.payouts[id].status != PayoutStatus.PENDING then Handled(c, Failure(PAYOUT_NOT_PENDING))
    else Release(c, id, REJECTED, PayoutRejectedRef(id))
  }

  function Cancel(c: Core, id: nat, userId: nat): Handled<()> {
    if id >= |c.payouts| || c.payouts[id].userId != userId then Handled(c, Failure(FromLedger(NOT_FOUND)))
    else if c.payouts[id].status != PayoutStatus.PENDING then Handled(c, Failure(PAYOUT_NOT_PENDING))
    else Release(c, id, PayoutStatus.CANCELLED, PayoutCancelledRef(id))
  }

  function TransferFunds(c: Core, fromId: nat, toId: nat, amount: int, text: string): Handled<()> {
    match Apply(c.db, Transfer(fromId, toId, amount, CallerRef(text)), c.nextEntry, c.nextEntry + 1)
    case Success(db) => Handled(c.(db := db, nextEntry := c.nextEntry + 2), Success(()))
    case Failure(e) => Handled(c, Failure(FromLedger(e)))
  }

  // ------------------------------------------------------------------ runs

  datatype Event =
    | OpenedWallet(userId: nat)
    | Initiated(userId: nat, amount: int, purpose: string, provider: Option<string>)
    | CalledBack(id: nat, reference: string, ok: bool, verified: bool)
    | RefundAsked(id: nat, asked: Option<int>, reply: ProviderRefund)
    | RefundMarked(id: nat)
    | PayoutAsked(userId: nat, amount: int, ibanValid: bool)
    | Approved(id: nat)
    | Rejected(id: nat)
    | MarkedPaid(id: nat)
    | Cancelled(id: nat, userId: nat)
    | Transferred(fromId: nat, toId: nat, amount: int, text: string)

  // The handlers that decide on a payout.
  predicate IsDecision(e: Event) {
    e.Approved? || e.Rejected? || e.MarkedPaid? || e.Cancelled?
  }

  function Do(c: Core, e: Event): Core
    requires Ready(c)
  {
    match e
    case OpenedWallet(user) => WithWallet(c, user).1
    case Initiated(user, amount, purpose, provider) => Initiate(c, user, amount, purpose, provider).core
    case CalledBack(id, reference, ok, verified) => HandleCallback(c, id, reference, ok, verified).core
    case RefundAsked(id, asked, provider) => RequestRefund(c, id, asked, provider).core
    case RefundMarked(id) => MarkRefundCompleted(c, id).core
    case PayoutAsked(user, amount, ibanValid) => RequestPayout(c, user, amount, ibanValid).core
    case Approved(id) => Approve(c, id).core
    case Rejected(id) => Reject(c, id).core
    case MarkedPaid(id) => MarkPaid(c, id).core
    case Cancelled(id, user) => Cancel(c, id, user).core
    case Transferred(v, w, amount, text) => TransferFunds(c, v, w, amount, text).core
  }

  // ------------------------------------------------------------------ the invariant

  // Every entry belongs to the row its reference names, with that row's amount and direction.
  ghost predicate EntryOk(c: Core, e: Entry) {
    match e.reference
    case PaymentRef(id) =>
      id < |c.payments| && IsTopup(c.payments[id]) && e.kind == CREDIT && e.amount == c.payments[id].amount
      && e.userId == c.payments[id].userId
    case RefundRef(id) =>
      id < |c.refunds| && e.kind == DEBIT && e.amount == c.refunds[id].amount
    case PayoutRef(id) =>
      id < |c.payouts| && e.kind == DEBIT && e.amount == c.payouts[id].amount && e.walletId == c.payouts[id].walletId
    case PayoutRejectedRef(id) =>
      id < |c.payouts| && e.kind == CREDIT && e.amount == c.payouts[id].amount && e.walletId == c.payouts[id].walletId
    case PayoutCancelledRef(id) =>
      id < |c.payouts| && e.kind == CREDIT && e.amount == c.payouts[id].amount && e.walletId == c.payouts[id].walletId
    case _ => true
  }

  ghost predicate PaymentOk(c: Core, id: nat) {
    var n := Count(c.db.entries, PaymentRef(id));
    n <= 1 && (id < |c.payments| && IsTopup(c.payments[id]) && c.payments[id].status == SUCCEEDED ==> n == 1)
  }

  ghost predicate RefundOk(c: Core, id: nat) {
    && Count(c.db.entries, RefundRef(id)) <= (if id < |c.refunds| then 1 else 0)
    && (id < |c.refunds| ==>
          var r := c.refunds[id];
          && r.paymentId < |c.payments| && 0 < r.amount && c.payments[r.paymentId].status == SUCCEEDED
          && RefundedSum(c.refunds, r.paymentId) <= c.payments[r.paymentId].amount)
  }

  ghost predicate PayoutOk(c: Core, id: nat) {
    && Count(c.db.entries, PayoutRef(id)) == (if id < |c.payouts| then 1 else 0)
    && Count(c.db.entries, PayoutRejectedRef(id))
       == (if id < |c.payouts| && c.payouts[id].status == REJECTED then 1 else 0)
    && Count(c.db.entries, PayoutCancelledRef(id))
       == (if id < |c.payouts| && c.payouts[id].status == PayoutStatus.CANCELLED then 1 else 0)
    && (id < |c.payouts| ==> 0 < c.payouts[id].amount && c.payouts[id].walletId in c.db.wallets)
  }

  ghost predicate Inv(c: Core) {
    && Sound(c.db) && FreshWalletId(c.db.wallets, c.nextWallet)
    && (forall k :: 0 <= k < |c.db.entries| ==> EntryOk(c, c.db.entries[k]))
    && (forall id :: PaymentOk(c, id))
    && (forall id :: RefundOk(c, id))
    && (forall id :: PayoutOk(c, id))
    && Conserved(c)
  }

  // ------------------------------------------------------------------ conservation

  datatype Flow = TOPUP | REFUND | OTHER

  function FlowOf(r: Reference): Flow {
    if r.PaymentRef? then TOPUP else if r.RefundRef? then REFUND else OTHER
  }

  // The amounts of the entries of one flow and direction.
  function Volume(entries: seq<Entry>, flow: Flow, kind: Kind): int {
    if entries == [] then 0 else
      var n := |entries| - 1;
      var e := entries[n];
      Volume(entries[..n], flow, kind) + (if FlowOf(e.reference) == flow && e.kind == kind then e.amount else 0)
  }

  // Money that payouts hold or have taken out.
  function Held(payouts: seq<Payout>): int {
    if payouts == [] then 0 else
      var n := |payouts| - 1;
      Held(payouts[..n]) + (if payouts[n].status in {PayoutStatus.PENDING, APPROVED, PAID} then payouts[n].amount else 0)
  }

  ghost predicate Conserved(c: Core) {
    Total(c.db) == Volume(c.db.entries, TOPUP, CREDIT) - Volume(c.db.entries, REFUND, DEBIT) - Held(c.payouts)
  }

  lemma VolumePush(entries: seq<Entry>, e: Entry, flow: Flow, kind: Kind)
    ensures Volume(entries + [e], flow, kind)
         == Volume(entries, flow, kind) + (if FlowOf(e.reference) == flow && e.kind == kind then e.amount else 0)
  {
    assert (entries + [e])[..|entries|] == entries;
  }

  function Hold(p: Payout): int {
    if p.status in {PayoutStatus.PENDING, APPROVED, PAID} then p.amount else 0
  }

  lemma {:induction false} HeldUpdate(payouts: seq<Payout>, i: nat, p: Payout)
    requires i < |payouts|
    ensures Held(payouts[i := p]) == Held(payouts) - Hold(payouts[i]) + Hold(p)
  {
    var n := |payouts| - 1;
    if i < n {
      assert payouts[i := p][..n] == payouts[..n][i := p];
      HeldUpdate(payouts[..n], i, p);
    } else {
      assert payouts[i := p][..n] == payouts[..n];
    }
  }

  // ------------------------------------------------------------------ each handler keeps it

  // One movement on top of rows that already describe it.
  lemma MoveKeeps(c: Core, w: nat, kind: Kind, amount: int, reference: Reference)
    requires Sound(c.db) && FreshWalletId(c.db.wallets, c.nextWallet) && w in c.db.wallets && 0 < amount
    requires kind == DEBIT ==> amount <= c.db.wallets[w].balance
    requires forall k :: 0 <= k < |c.db.entries| ==> EntryOk(c, c.db.entries[k])
    requires EntryOk(c, Entry(c.nextEntry, w, c.db.wallets[w].userId, kind, amount, reference))
    ensures var c' := Move(c, w, kind, amount, reference);
      && Sound(c'.db) && FreshWalletId(c'.db.wallets, c'.nextWallet) && c'.db.wallets.Keys == c.db.wallets.Keys
      && (forall k :: 0 <= k < |c'.db.entries| ==> EntryOk(c', c'.db.entries[k]))
      && (forall r :: Count(c'.db.entries, r) == Count(c.db.entries, r) + (if r == reference then 1 else 0))
      && Total(c'.db) == Total(c.db) + (if kind == CREDIT then amount else -amount)
      && (forall flow, k :: Volume(c'.db.entries, flow, k)
            == Volume(c.db.entries, flow, k) + (if FlowOf(reference) == flow && k == kind then amount else 0))
  {
    var c' := Move(c, w, kind, amount, reference);
    PostSound(c.db, w, kind, amount, reference, c.nextEntry);
    PostTotal(c.db, w, kind, amount, reference, c.nextEntry);
    var e := Entry(c.nextEntry, w, c.db.wallets[w].userId, kind, amount, reference);
    assert c'.db.entries == c.db.entries + [e];
    forall r ensures Count(c'.db.entries, r) == Count(c.db.entries, r) + (if r == reference then 1 else 0) {
      CountPush(c.db.entries, e, r);
    }
    forall flow, k
      ensures Volume(c'.db.entries, flow, k)
           == Volume(c.db.entries, flow, k) + (if FlowOf(reference) == flow && k == kind then amount else 0)
    {
      VolumePush(c.db.entries, e, flow, k);
    }
    forall k | 0 <= k < |c'.db.entries| ensures EntryOk(c', c'.db.entries[k]) {
      if k < |c.db.entries| {
        assert EntryOk(c, c.db.entries[k]);
      }
    }
  }

  lemma WithWalletKeeps(c: Core, userId: nat)
    requires Inv(c)
    ensures Inv(WithWallet(c, userId).1)
  {
    var c' := WithWallet(c, userId).1;
    OpeningKeepsSound(c.db, userId, c.nextWallet);
    SameEntries(c, c');
    forall id: nat ensures PaymentOk(c', id) && RefundOk(c', id) && PayoutOk(c', id) {
      assert PaymentOk(c, id) && RefundOk(c, id) && PayoutOk(c, id);
    }
  }

  // Rows may be added or change status without any entry losing its row.
  lemma SameEntries(c: Core, c': Core)
    requires forall k :: 0 <= k < |c.db.entries| ==> EntryOk(c, c.db.entries[k])
    requires c'.db.entries == c.db.entries
    requires |c.payments| <= |c'.payments| && |c.refunds| <= |c'.refunds| && |c.payouts| <= |c'.payouts|
    requires forall i :: 0 <= i < |c.payments| ==> c'.payments[i] == c.payments[i].(status := c'.payments[i].status)
    requires forall i :: 0 <= i < |c.refunds| ==> c'.refunds[i] == c.refunds[i].(status := c'.refunds[i].status)
    requires forall i :: 0 <= i < |c.payouts| ==> c'.payouts[i] == c.payouts[i].(status := c'.payouts[i].status)
    ensures forall k :: 0 <= k < |c'.db.entries| ==> EntryOk(c', c'.db.entries[k])
  {
    forall k | 0 <= k < |c'.db.entries| ensures EntryOk(c', c'.db.entries[k]) {
      assert EntryOk(c, c.db.entries[k]);
    }
  }

  lemma SetPaymentKeeps(c: Core, id: nat, status: PaymentStatus)
    requires Inv(c) && id < |c.payments| && c.payments[id].status != SUCCEEDED
    requires status == SUCCEEDED && IsTopup(c.payments[id]) ==> Count(c.db.entries, PaymentRef(id)) == 1
    ensures Inv(SetPayment(c, id, status))
  {
    var c' := SetPayment(c, id, status);
    SameEntries(c, c');
    forall k: nat ensures PaymentOk(c', k) && RefundOk(c', k) && PayoutOk(c', k) {
      assert PaymentOk(c, k) && RefundOk(c, k) && PayoutOk(c, k);
    }
  }

  lemma InitiateKeeps(c: Core, userId: nat, amount: int, purpose: string, provider: Option<string>)
    requires Inv(c)
    ensures Inv(Initiate(c, userId, amount, purpose, provider).core)
  {
    var c' := Initiate(c, userId, amount, purpose, provider).core;
    SameEntries(c, c');
    forall k: nat ensures PaymentOk(c', k) && RefundOk(c', k) && PayoutOk(c', k) {
      assert PaymentOk(c, k) && RefundOk(c, k) && PayoutOk(c, k);
    }
  }

  lemma CreditPaymentKeeps(c: Core, w: nat, id: nat)
    requires Inv(c) && id < |c.payments| && IsTopup(c.payments[id]) && 0 < c.payments[id].amount
    requires w in c.db.wallets && c.db.wallets[w].userId == c.payments[id].userId
    requires Count(c.db.entries, PaymentRef(id)) == 0
    ensures var c' := Move(c, w, CREDIT, c.payments[id].amount, PaymentRef(id));
      Inv(c') && Count(c'.db.entries, PaymentRef(id)) == 1
  {
    hide Sound, Total, Volume, Count;
    MoveKeeps(c, w, CREDIT, c.payments[id].amount, PaymentRef(id));
    var c' := Move(c, w, CREDIT, c.payments[id].amount, PaymentRef(id));
    forall k: nat ensures PaymentOk(c', k) && RefundOk(c', k) && PayoutOk(c', k) {
      assert PaymentOk(c, k) && RefundOk(c, k) && PayoutOk(c, k);
    }
  }

  lemma ReconcileKeeps(c: Core, id: nat)
    requires Inv(c) && id < |c.payments|
    ensures var r := Reconcile(c, id);
      && Inv(r.core) && r.core.payments == c.payments
      && (r.answer.Success? && IsTopup(c.payments[id]) ==> Count(r.core.db.entries, PaymentRef(id)) == 1)
  {
    assert Count(c.db.entries, PaymentRef(id)) <= 1 by { assert PaymentOk(c, id); }
    CountNone(c.db.entries, PaymentRef(id));
    if !HasEntry(c.db.entries, PaymentRef(id)) && IsTopup(c.payments[id]) {
      var (w, c1) := WithWallet(c, c.payments[id].userId);
      WithWalletKeeps(c, c.payments[id].userId);
      if 0 < c.payments[id].amount {
        CreditPaymentKeeps(c1, w, id);
      }
    }
  }

  lemma CallbackKeeps(c: Core, id: nat, reference: string, ok: bool, verified: bool)
    requires Inv(c)
    ensures Inv(HandleCallback(c, id, reference, ok, verified).core)
  {
    if id < |c.payments| && !Terminal(c.payments[id].status) && c.payments[id].providerReference == Some(reference) {
      if !ok {
        SetPaymentKeeps(c, id, PaymentStatus.CANCELLED);
      } else if !verified {
        SetPaymentKeeps(c, id, FAILED);
      } else {
        ReconcileKeeps(c, id);
        if Reconcile(c, id).answer.Success? {
          SetPaymentKeeps(Reconcile(c, id).core, id, SUCCEEDED);
        }
      }
    }
  }

  lemma RefundedSumPush(refunds: seq<Refund>, r: Refund, id: nat)
    ensures RefundedSum(refunds + [r], id) == RefundedSum(refunds, id) + (if r.paymentId == id then r.amount else 0)
  {
    assert (refunds + [r])[..|refunds|] == refunds;
  }

  // The row goes in first: within the cap, on a succeeded payment, with no debit yet.
  lemma AddRefundKeeps(c: Core, row: Refund)
    requires Inv(c) && row.paymentId < |c.payments| && c.payments[row.paymentId].status == SUCCEEDED
    requires 0 < row.amount <= c.payments[row.paymentId].amount - RefundedSum(c.refunds, row.paymentId)
    ensures Inv(c.(refunds := c.refunds + [row]))
  {
    hide Sound, FreshWalletId, Count, RefundedSum, Volume, Total, Held;
    var c' := c.(refunds := c.refunds + [row]);
    SameEntries(c, c');
    forall k: nat ensures PaymentOk(c', k) && RefundOk(c', k) && PayoutOk(c', k) {
      assert PaymentOk(c, k) && RefundOk(c, k) && PayoutOk(c, k);
      if k < |c'.refunds| {
        RefundedSumPush(c.refunds, row, c'.refunds[k].paymentId);
      }
    }
  }

  lemma DebitRefundKeeps(c: Core, w: nat, id: nat)
    requires Inv(c) && id < |c.refunds| && w in c.db.wallets && Count(c.db.entries, RefundRef(id)) == 0
    requires c.refunds[id].amount <= c.db.wallets[w].balance
    ensures Inv(Move(c, w, DEBIT, c.refunds[id].amount, RefundRef(id)))
  {
    hide Sound, Total, Volume, Count;
    assert RefundOk(c, id);
    MoveKeeps(c, w, DEBIT, c.refunds[id].amount, RefundRef(id));
    var c' := Move(c, w, DEBIT, c.refunds[id].amount, RefundRef(id));
    forall k: nat ensures PaymentOk(c', k) && RefundOk(c', k) && PayoutOk(c', k) {
      assert PaymentOk(c, k) && RefundOk(c, k) && PayoutOk(c, k);
    }
  }

  // The debit that follows the row, when the wallet can bear it.
  lemma SettleRefundKeeps(c: Core, r: nat)
    requires Inv(c) && r < |c.refunds| && c.refunds[r].paymentId < |c.payments|
    requires Count(c.db.entries, RefundRef(r)) == 0 && 0 < c.refunds[r].amount
    ensures var (w, c2) := WithWallet(c, c.payments[c.refunds[r].paymentId].userId);
      Inv(LedgerCall(c2, Debit(w, c.refunds[r].amount, RefundRef(r))).core)
  {
    var user := c.payments[c.refunds[r].paymentId].userId;
    var (w, c2) := WithWallet(c, user);
    WithWalletKeeps(c, user);
    if c.refunds[r].amount <= c2.db.wallets[w].balance {
      DebitRefundKeeps(c2, w, r);
    }
  }

  lemma RefundKeeps(c: Core, id: nat, asked: Option<int>, provider: ProviderRefund)
    requires Inv(c)
    ensures Inv(RequestRefund(c, id, asked, provider).core)
  {
    if id < |c.payments| && c.payments[id].status == SUCCEEDED {
      var amount := if asked.Some? then asked.value else c.payments[id].amount;
      if 0 < amount <= c.payments[id].amount - RefundedSum(c.refunds, id) && provider != ProviderError {
        var r := |c.refunds|;
        var row := Refund(id, amount, if provider == Refunded then COMPLETED else PENDING_MANUAL);
        AddRefundKeeps(c, row);
        assert Count(c.db.entries, RefundRef(r)) == 0 by { assert RefundOk(c, r); }
        if IsTopup(c.payments[id]) {
          SettleRefundKeeps(c.(refunds := c.refunds + [row]), r);
        }
      }
    }
  }

  lemma MarkRefundKeeps(c: Core, id: nat)
    requires Inv(c)
    ensures Inv(MarkRefundCompleted(c, id).core)
  {
    var c' := MarkRefundCompleted(c, id).core;
    SameEntries(c, c');
    forall k: nat ensures PaymentOk(c', k) && RefundOk(c', k) && PayoutOk(c', k) {
      assert PaymentOk(c, k) && RefundOk(c, k) && PayoutOk(c, k);
      if k < |c.refunds| {
        SumIgnoresStatus(c.refunds, c'.refunds, c.refunds[k].paymentId);
      }
    }
  }

  lemma {:induction false} SumIgnoresStatus(a: seq<Refund>, b: seq<Refund>, id: nat)
    requires |a| == |b| && forall i :: 0 <= i < |a| ==> b[i] == a[i].(status := b[i].status)
    ensures RefundedSum(a, id) == RefundedSum(b, id)
  {
    if a != [] {
      SumIgnoresStatus(a[..|a| - 1], b[..|b| - 1], id);
    }
  }

  // A movement that belongs to a payout leaves the payment and refund rows as they were.
  lemma PayoutMoveKeepsOthers(c: Core, c': Core, reference: Reference)
    requires Inv(c) && !reference.PaymentRef? && !reference.RefundRef?
    requires c'.payments == c.payments && c'.refunds == c.refunds
    requires forall r :: Count(c'.db.entries, r) == Count(c.db.entries, r) + (if r == reference then 1 else 0)
    ensures forall k :: PaymentOk(c', k) && RefundOk(c', k)
  {
    forall k: nat ensures PaymentOk(c', k) && RefundOk(c', k) {
      assert PaymentOk(c, k) && RefundOk(c, k);
    }
  }

  lemma HoldKeeps(c: Core, userId: nat, w: nat, amount: int)
    requires Inv(c) && w in c.db.wallets && 0 < amount <= c.db.wallets[w].balance
    ensures var c1 := c.(payouts := c.payouts + [Payout(userId, w, amount, PayoutStatus.PENDING)]);
      Inv(Move(c1, w, DEBIT, amount, PayoutRef(|c.payouts|)))
  {
    hide Sound, Total, Volume, Count;
    var id := |c.payouts|;
    var c1 := c.(payouts := c.payouts + [Payout(userId, w, amount, PayoutStatus.PENDING)]);
    SameEntries(c, c1);
    MoveKeeps(c1, w, DEBIT, amount, PayoutRef(id));
    var c' := Move(c1, w, DEBIT, amount, PayoutRef(id));
    assert c'.payouts[..id] == c.payouts;
    PayoutMoveKeepsOthers(c, c', PayoutRef(id));
    forall k: nat ensures PayoutOk(c', k) {
      assert PayoutOk(c, k);
    }
  }

  lemma RequestPayoutKeeps(c: Core, userId: nat, amount: int, ibanValid: bool)
    requires Inv(c)
    ensures Inv(RequestPayout(c, userId, amount, ibanValid).core)
  {
    var owned := OwnedBy(c.db.wallets, userId);
    if ibanValid && 0 < amount && owned.Some? && amount <= c.db.wallets[owned.value].balance {
      HoldKeeps(c, userId, owned.value, amount);
    }
  }

  lemma SetPayoutKeeps(c: Core, id: nat, status: PayoutStatus)
    requires Inv(c) && id < |c.payouts|
    requires 0 < Hold(c.payouts[id]) && status in {APPROVED, PAID}
    ensures Inv(SetPayout(c, id, status))
  {
    var c' := SetPayout(c, id, status);
    SameEntries(c, c');
    HeldUpdate(c.payouts, id, c'.payouts[id]);
    forall k: nat ensures PaymentOk(c', k) && RefundOk(c', k) && PayoutOk(c', k) {
      assert PaymentOk(c, k) && RefundOk(c, k) && PayoutOk(c, k);
    }
  }

  lemma ReleaseKeeps(c: Core, id: nat, status: PayoutStatus, reference: Reference)
    requires Inv(c) && id < |c.payouts| && 0 < Hold(c.payouts[id])
    requires (status == REJECTED && reference == PayoutRejectedRef(id))
          || (status == PayoutStatus.CANCELLED && reference == PayoutCancelledRef(id))
    ensures Inv(Release(c, id, status, reference).core)
  {
    hide Sound, Total, Volume, Count;
    assert 0 < c.payouts[id].amount && c.payouts[id].walletId in c.db.wallets by { assert PayoutOk(c, id); }
    var p, c1 := c.payouts[id], SetPayout(c, id, status);
    SameEntries(c, c1);
    MoveKeeps(c1, p.walletId, CREDIT, p.amount, reference);
    var c' := Move(c1, p.walletId, CREDIT, p.amount, reference);
    HeldUpdate(c.payouts, id, c1.payouts[id]);
    PayoutMoveKeepsOthers(c, c', reference);
    ReleaseKeepsPayouts(c, c', id, status, reference);
  }

  lemma ReleaseKeepsPayouts(c: Core, c': Core, id: nat, status: PayoutStatus, reference: Reference)
    requires Inv(c) && id < |c.payouts| && 0 < Hold(c.payouts[id])
    requires (status == REJECTED && reference == PayoutRejectedRef(id))
          || (status == PayoutStatus.CANCELLED && reference == PayoutCancelledRef(id))
    requires c'.payouts == c.payouts[id := c.payouts[id].(status := status)]
    requires c'.db.wallets.Keys == c.db.wallets.Keys
    requires forall r :: Count(c'.db.entries, r) == Count(c.db.entries, r) + (if r == reference then 1 else 0)
    ensures forall k :: PayoutOk(c', k)
  {
    forall k: nat ensures PayoutOk(c', k) {
      assert PayoutOk(c, k);
    }
  }

  lemma CallerMoveKeeps(c: Core, w: nat, kind: Kind, amount: int, text: string)
    requires Sound(c.db) && FreshWalletId(c.db.wallets, c.nextWallet) && w in c.db.wallets && 0 < amount
    requires kind == DEBIT ==> amount <= c.db.wallets[w].balance
    requires forall k :: 0 <= k < |c.db.entries| ==> EntryOk(c, c.db.entries[k])
    requires forall id :: PaymentOk(c, id) && RefundOk(c, id) && PayoutOk(c, id)
    ensures var c' := Move(c, w, kind, amount, CallerRef(text));
      && Sound(c'.db) && FreshWalletId(c'.db.wallets, c'.nextWallet) && c'.db.wallets.Keys == c.db.wallets.Keys
      && (forall k :: 0 <= k < |c'.db.entries| ==> EntryOk(c', c'.db.entries[k]))
      && (forall id :: PaymentOk(c', id) && RefundOk(c', id) && PayoutOk(c', id))
      && Total(c'.db) == Total(c.db) + (if kind == CREDIT then amount else -amount)
      && Volume(c'.db.entries, TOPUP, CREDIT) == Volume(c.db.entries, TOPUP, CREDIT)
      && Volume(c'.db.entries, REFUND, DEBIT) == Volume(c.db.entries, REFUND, DEBIT)
  {
    hide Sound, Total, Volume, Count;
    MoveKeeps(c, w, kind, amount, CallerRef(text));
    var c' := Move(c, w, kind, amount, CallerRef(text));
    forall k: nat ensures PaymentOk(c', k) && RefundOk(c', k) && PayoutOk(c', k) {
      assert PaymentOk(c, k) && RefundOk(c, k) && PayoutOk(c, k);
    }
  }

  lemma TransferKeeps(c: Core, v: nat, w: nat, amount: int, text: string)
    requires Inv(c)
    ensures Inv(TransferFunds(c, v, w, amount, text).core)
  {
    if Apply(c.db, Transfer(v, w, amount, CallerRef(text)), c.nextEntry, c.nextEntry + 1).Success? {
      assert forall id :: PaymentOk(c, id) && RefundOk(c, id) && PayoutOk(c, id);
      CallerMoveKeeps(c, v, DEBIT, amount, text);
      var c1 := Move(c, v, DEBIT, amount, CallerRef(text));
      CallerMoveKeeps(c1, w, CREDIT, amount, text);
      assert TransferFunds(c, v, w, amount, text).core == Move(c1, w, CREDIT, amount, CallerRef(text));
    }
  }

  lemma InvDo(c: Core, e: Event)
    requires Inv(c)
    ensures Inv(Do(c, e))
  {
    match e
    case OpenedWallet(user) => WithWalletKeeps(c, user);
    case Initiated(user, amount, purpose, provider) => InitiateKeeps(c, user, amount, purpose, provider);
    case CalledBack(id, reference, ok, verified) => CallbackKeeps(c, id, reference, ok, verified);
    case RefundAsked(id, asked, provider) => RefundKeeps(c, id, asked, provider);
    case RefundMarked(id) => MarkRefundKeeps(c, id);
    case PayoutAsked(user, amount, ibanValid) => RequestPayoutKeeps(c, user, amount, ibanValid);
    case Approved(id) =>
      if id < |c.payouts| && c.payouts[id].status == PayoutStatus.PENDING {
        assert PayoutOk(c, id);
        SetPayoutKeeps(c, id, APPROVED);
      }
    case Rejected(id) =>
      if id < |c.payouts| && c.payouts[id].status == PayoutStatus.PENDING {
        assert PayoutOk(c, id);
        ReleaseKeeps(c, id, REJECTED, PayoutRejectedRef(id));
      }
    case MarkedPaid(id) =>
      if id < |c.payouts| && c.payouts[id].status == APPROVED {
        assert PayoutOk(c, id);
        SetPayoutKeeps(c, id, PAID);
      }
    case Cancelled(id, user) =>
      if id < |c.payouts| && c.payouts[id].userId == user && c.payouts[id].status == PayoutStatus.PENDING {
        assert PayoutOk(c, id);
        ReleaseKeeps(c, id, PayoutStatus.CANCELLED, PayoutCancelledRef(id));
      }
    case Transferred(v, w, amount, text) => TransferKeeps(c, v, w, amount, text);
  }
}
