/** The payment and payout services as they write their tables, proved against the whole handlers. */
module MoneyServices {
  import opened Common
  import opened PaymentTypes
  import opened Ledger
  import Money
  import MoneyRuns

  class PaymentTables {
    var payments: seq<Payment>
    var refunds: seq<Money.Refund>
    var payouts: seq<Money.Payout>

    constructor ()
      ensures payments == [] && refunds == [] && payouts == []
    {
      payments, refunds, payouts := [], [], [];
    }
  }

  function Contents(tables: LedgerTables, rows: PaymentTables): Money.Core
    reads tables, rows
  {
    Money.Core(tables.Contents(), tables.nextWalletId, tables.nextEntryId, rows.payments, rows.refunds, rows.payouts)
  }

  // The whole invariant of the money core, which every handler keeps.
  ghost predicate Kept(tables: LedgerTables, rows: PaymentTables)
    reads tables, rows
  {
    Money.Inv(Contents(tables, rows))
  }

  lemma KeptIsValid(tables: LedgerTables, rows: PaymentTables)
    requires Kept(tables, rows)
    ensures tables.Valid() && Money.Ready(Contents(tables, rows))
    ensures forall k :: 0 <= k < |rows.payouts| ==> 0 < rows.payouts[k].amount
  {
    forall k | 0 <= k < |rows.payouts| ensures 0 < rows.payouts[k].amount {
      assert Money.PayoutOk(Contents(tables, rows), k);
    }
  }

  // Where the services start: empty tables, which satisfy the invariant.
  method NewTables() returns (tables: LedgerTables, rows: PaymentTables)
    ensures fresh(tables) && fresh(rows) && Contents(tables, rows) == Money.INITIAL && Kept(tables, rows)
  {
    tables := new LedgerTables();
    rows := new PaymentTables();
    MoneyRuns.InitialInv();
  }

  lemma ReconcileIgnoresStatus(c: Money.Core, id: nat, status: PaymentStatus)
    requires Money.Ready(c) && id < |c.payments|
    ensures var a, b := Money.Reconcile(c, id), Money.Reconcile(Money.SetPayment(c, id, status), id);
      b.answer == a.answer && b.core == Money.SetPayment(a.core, id, status)
  {}

  class PaymentLedgerReconciler {
    const tables: LedgerTables
    const rows: PaymentTables
    const wallets: WalletsService
    const ledger: LedgerService

    constructor (tables: LedgerTables, rows: PaymentTables, wallets: WalletsService, ledger: LedgerService)
      requires wallets.tables == tables && ledger.tables == tables
      ensures this.tables == tables && this.rows == rows && Wired()
    {
      this.tables, this.rows, this.wallets, this.ledger := tables, rows, wallets, ledger;
    }

    predicate Wired() {
      wallets.tables == tables && ledger.tables == tables
    }

    method Reconcile(paymentId: nat) returns (r: Result<(), Money.MoneyError>)
      requires Wired() && tables.Valid()
      modifies tables
      ensures tables.Valid()
      ensures Money.Handled(Contents(tables, rows), r) == Money.Reconcile(old(Contents(tables, rows)), paymentId)
    {
      if paymentId >= |rows.payments| { return Success(()); }
      var payment := rows.payments[paymentId];
      var reference := PaymentRef(paymentId);
      if HasEntry(tables.entries, reference) { return Success(()); }
      if !IsTopup(payment) { return Success(()); }
      var walletId := wallets.FindOrCreateForUser(payment.userId);
      var entry := ledger.Credit(walletId, payment.amount, reference);
      r := if entry.Success? then Success(()) else Failure(Money.FromLedger(entry.error));
    }
  }

  class PaymentsService {
    const tables: LedgerTables
    const rows: PaymentTables
    const reconciler: PaymentLedgerReconciler
    const wallets: WalletsService
    const ledger: LedgerService

    constructor (reconciler: PaymentLedgerReconciler)
      requires reconciler.Wired()
      ensures this.reconciler == reconciler && Wired()
    {
      this.reconciler := reconciler;
      tables, rows := reconciler.tables, reconciler.rows;
      wallets, ledger := reconciler.wallets, reconciler.ledger;
    }

    predicate Wired() {
      && reconciler.Wired() && reconciler.tables == tables && reconciler.rows == rows
      && wallets.tables == tables && ledger.tables == tables
    }

    method UpdateStatus(id: nat, status: PaymentStatus)
      requires id < |rows.payments|
      modifies rows`payments
      ensures rows.payments == old(rows.payments)[id := old(rows.payments)[id].(status := status)]
    {
      rows.payments := rows.payments[id := rows.payments[id].(status := status)];
    }

    // provider is the reference the gateway answers with, or None when its call fails.
    method Initiate(userId: nat, amount: int, purpose: string, provider: Option<string>)
      returns (r: Result<nat, Money.MoneyError>)
      requires Kept(tables, rows)
      modifies rows`payments
      ensures Money.Handled(Contents(tables, rows), r)
           == Money.Initiate(old(Contents(tables, rows)), userId, amount, purpose, provider)
      ensures Kept(tables, rows)
    {
      hide Money.Inv;
      KeptIsValid(tables, rows);
      Money.InvDo(Contents(tables, rows), Money.Initiated(userId, amount, purpose, provider));
      var id := |rows.payments|;
      rows.payments := rows.payments + [Payment(userId, amount, purpose, PENDING, None)];
      if provider.None? {
        UpdateStatus(id, FAILED);
        return Failure(Money.PAYMENT_INITIATION_FAILED);
      }
      rows.payments := rows.payments[id := rows.payments[id].(providerReference := provider)];
      r := Success(id);
    }

    // The outer transaction: the status, then the credit; a failed credit rolls the status back.
    method Succeed(id: nat) returns (r: Result<PaymentStatus, Money.MoneyError>)
      requires Wired() && tables.Valid() && id < |rows.payments|
      modifies tables, rows`payments
      ensures tables.Valid()
      ensures var done := Money.Reconcile(old(Contents(tables, rows)), id);
        Money.Handled(Contents(tables, rows), r)
          == if done.answer.Success? then Money.Handled(Money.SetPayment(done.core, id, SUCCEEDED), Success(SUCCEEDED))
             else Money.Handled(done.core, Failure(done.answer.error))
    {
      var status := rows.payments[id].status;
      UpdateStatus(id, SUCCEEDED);
      ReconcileIgnoresStatus(old(Contents(tables, rows)), id, SUCCEEDED);
      var done := reconciler.Reconcile(id);
      if done.Failure? {
        UpdateStatus(id, status);
        assert rows.payments == old(rows.payments);
        return Failure(done.error);
      }
      r := Success(SUCCEEDED);
    }

    method HandleCallback(id: nat, reference: string, ok: bool, verified: bool)
      returns (r: Result<PaymentStatus, Money.MoneyError>)
      requires Wired() && Kept(tables, rows)
      modifies tables, rows`payments
      ensures Kept(tables, rows)
      ensures Money.Handled(Contents(tables, rows), r)
           == Money.HandleCallback(old(Contents(tables, rows)), id, reference, ok, verified)
    {
      hide Money.Inv;
      KeptIsValid(tables, rows);
      Money.InvDo(Contents(tables, rows), Money.CalledBack(id, reference, ok, verified));
      if id >= |rows.payments| { return Failure(Money.FromLedger(NOT_FOUND)); }
      var payment := rows.payments[id];
      if Terminal(payment.status) { return Success(payment.status); }
      if payment.providerReference != Some(reference) { return Failure(Money.INVALID_CALLBACK); }
      if !ok {
        UpdateStatus(id, CANCELLED);
        return Success(CANCELLED);
      }
      if verified {
        r := Succeed(id);
        return;
      }
      UpdateStatus(id, FAILED);
      r := Success(FAILED);
    }

    // SELECT SUM(amount) over the payment's refunds.
    method SumRefunds(id: nat) returns (sum: int)
      ensures sum == Money.RefundedSum(rows.refunds, id)
    {
      sum := 0;
      for k := 0 to |rows.refunds|
        invariant sum == Money.RefundedSum(rows.refunds[..k], id)
      {
        assert rows.refunds[..k + 1][..k] == rows.refunds[..k];
        if rows.refunds[k].paymentId == id {
          sum := sum + rows.refunds[k].amount;
        }
      }
      assert rows.refunds[..|rows.refunds|] == rows.refunds;
    }

    method DebitUser(userId: nat, amount: int, reference: Reference) returns (r: Result<(), Money.MoneyError>)
      requires Wired() && tables.Valid()
      modifies tables
      ensures tables.Valid()
      ensures var (w, c) := Money.WithWallet(old(Contents(tables, rows)), userId);
        Money.Handled(Contents(tables, rows), r) == Money.LedgerCall(c, Debit(w, amount, reference))
    {
      var walletId := wallets.FindOrCreateForUser(userId);
      var entry := ledger.Debit(walletId, amount, reference);
      r := if entry.Success? then Success(()) else Failure(Money.FromLedger(entry.error));
    }

    method Refund(id: nat, asked: Option<int>, provider: Money.ProviderRefund)
      returns (r: Result<nat, Money.MoneyError>)
      requires Wired() && Kept(tables, rows)
      modifies tables, rows`refunds
      ensures Kept(tables, rows)
      ensures Money.Handled(Contents(tables, rows), r)
           == Money.RequestRefund(old(Contents(tables, rows)), id, asked, provider)
    {
      hide Money.Inv;
      KeptIsValid(tables, rows);
      Money.InvDo(Contents(tables, rows), Money.RefundAsked(id, asked, provider));
      if id >= |rows.payments| { return Failure(Money.FromLedger(NOT_FOUND)); }
      var payment := rows.payments[id];
      if payment.status != SUCCEEDED { return Failure(Money.PAYMENT_NOT_REFUNDABLE); }
      var amount := if asked.Some? then asked.value else payment.amount;
      if amount <= 0 { return Failure(Money.FromLedger(VALIDATION_ERROR)); }
      var alreadyRefunded := SumRefunds(id);
      var remaining := payment.amount - alreadyRefunded;
      if amount > remaining { return Failure(Money.REFUND_AMOUNT_EXCEEDS_AVAILABLE); }
      if provider == Money.ProviderError { return Failure(Money.PROVIDER_FAILURE); }
      var status := if provider == Money.Refunded then Money.COMPLETED else Money.PENDING_MANUAL;
      var refundId := |rows.refunds|;
      rows.refunds := rows.refunds + [Money.Refund(id, amount, status)];
      if IsTopup(payment) {
        var debit := DebitUser(payment.userId, amount, RefundRef(refundId));
        if debit.Failure? {
          return Failure(if debit.error == Money.FromLedger(INSUFFICIENT_FUNDS)
                         then Money.CANNOT_REFUND_INSUFFICIENT_BALANCE else debit.error);
        }
      }
      r := Success(refundId);
    }

    method MarkRefundCompleted(id: nat) returns (r: Result<(), Money.MoneyError>)
      requires Kept(tables, rows)
      modifies rows`refunds
      ensures Kept(tables, rows)
      ensures Money.Handled(Contents(tables, rows), r) == Money.MarkRefundCompleted(old(Contents(tables, rows)), id)
    {
      hide Money.Inv;
      KeptIsValid(tables, rows);
      Money.InvDo(Contents(tables, rows), Money.RefundMarked(id));
      if id >= |rows.refunds| { return Failure(Money.FromLedger(NOT_FOUND)); }
      if rows.refunds[id].status != Money.PENDING_MANUAL { return Failure(Money.REFUND_NOT_PENDING); }
      rows.refunds := rows.refunds[id := rows.refunds[id].(status := Money.COMPLETED)];
      r := Success(());
    }
  }

  class PayoutsService {
    const tables: LedgerTables
    const rows: PaymentTables
    const wallets: WalletsService

    constructor (tables: LedgerTables, rows: PaymentTables, wallets: WalletsService)
      requires wallets.tables == tables
      ensures this.tables == tables && this.rows == rows && this.wallets == wallets
    {
      this.tables, this.rows, this.wallets := tables, rows, wallets;
    }

    ghost predicate Valid()
      reads tables, rows
    {
      wallets.tables == tables && Kept(tables, rows)
    }

    // The payout's own ledger entry and balance update, inside its transaction.
    method Write(walletId: nat, kind: Kind, amount: int, reference: Reference)
      requires tables.Valid() && walletId in tables.wallets && 0 < amount
      requires kind == DEBIT ==> amount <= tables.wallets[walletId].balance
      modifies tables
      ensures tables.Valid()
      ensures Contents(tables, rows) == Money.Move(old(Contents(tables, rows)), walletId, kind, amount, reference)
    {
      hide Sound, Computed;
      PostSound(tables.Contents(), walletId, kind, amount, reference, tables.nextEntryId);
      var row := tables.wallets[walletId];
      tables.entries := tables.entries + [Entry(tables.nextEntryId, walletId, row.userId, kind, amount, reference)];
      tables.nextEntryId := tables.nextEntryId + 1;
      var balance := if kind == CREDIT then row.balance + amount else row.balance - amount;
      tables.wallets := tables.wallets[walletId := row.(balance := balance)];
    }

    method UpdateStatus(id: nat, status: Money.PayoutStatus)
      requires id < |rows.payouts|
      modifies rows`payouts
      ensures rows.payouts == old(rows.payouts)[id := old(rows.payouts)[id].(status := status)]
    {
      rows.payouts := rows.payouts[id := rows.payouts[id].(status := status)];
    }

    method Request(userId: nat, amount: int, ibanValid: bool) returns (r: Result<nat, Money.MoneyError>)
      requires Valid()
      modifies tables, rows`payouts
      ensures Valid()
      ensures Money.Handled(Contents(tables, rows), r)
           == Money.RequestPayout(old(Contents(tables, rows)), userId, amount, ibanValid)
    {
      hide Money.Inv;
      KeptIsValid(tables, rows);
      Money.InvDo(Contents(tables, rows), Money.PayoutAsked(userId, amount, ibanValid));
      if !ibanValid { return Failure(Money.INVALID_IBAN); }
      if amount <= 0 { return Failure(Money.FromLedger(VALIDATION_ERROR)); }
      var found := wallets.FindByUserId(userId);
      if found.Failure? { return Failure(Money.FromLedger(found.error)); }
      var before := rows.payouts;
      var id := |rows.payouts|;
      rows.payouts := rows.payouts + [Money.Payout(userId, found.value, amount, Money.PayoutStatus.PENDING)];
      if tables.wallets[found.value].balance - amount < 0 {
        rows.payouts := before;
        return Failure(Money.FromLedger(INSUFFICIENT_FUNDS));
      }
      Write(found.value, DEBIT, amount, PayoutRef(id));
      r := Success(id);
    }

    method Approve(id: nat) returns (r: Result<(), Money.MoneyError>)
      requires Valid()
      modifies rows`payouts
      ensures Valid()
      ensures Money.Handled(Contents(tables, rows), r) == Money.Approve(old(Contents(tables, rows)), id)
    {
      hide Money.Inv;
      KeptIsValid(tables, rows);
      Money.InvDo(Contents(tables, rows), Money.Approved(id));
      if id >= |rows.payouts| { return Failure(Money.FromLedger(NOT_FOUND)); }
      if rows.payouts[id].status != Money.PayoutStatus.PENDING { return Failure(Money.PAYOUT_NOT_PENDING); }
      UpdateStatus(id, Money.APPROVED);
      r := Success(());
    }

    method MarkPaid(id: nat) returns (r: Result<(), Money.MoneyError>)
      requires Valid()
      modifies rows`payouts
      ensures Valid()
      ensures Money.Handled(Contents(tables, rows), r) == Money.MarkPaid(old(Contents(tables, rows)), id)
    {
      hide Money.Inv;
      KeptIsValid(tables, rows);
      Money.InvDo(Contents(tables, rows), Money.MarkedPaid(id));
      if id >= |rows.payouts| { return Failure(Money.FromLedger(NOT_FOUND)); }
      if rows.payouts[id].status != Money.APPROVED { return Failure(Money.PAYOUT_NOT_APPROVED); }
      UpdateStatus(id, Money.PAID);
      r := Success(());
    }

    // Status first, then the locked wallet; a missing wallet rolls the status back.
    method Release(id: nat, status: Money.PayoutStatus, reference: Reference) returns (r: Result<(), Money.MoneyError>)
      requires tables.Valid() && id < |rows.payouts| && 0 < rows.payouts[id].amount
      modifies tables, rows`payouts
      ensures tables.Valid()
      ensures Money.Handled(Contents(tables, rows), r)
           == Money.Release(old(Contents(tables, rows)), id, status, reference)
    {
      var existing := rows.payouts[id];
      UpdateStatus(id, status);
      if existing.walletId !in tables.wallets {
        rows.payouts := rows.payouts[id := existing];
        assert rows.payouts == old(rows.payouts);
        return Failure(Money.FromLedger(NOT_FOUND));
      }
      Write(existing.walletId, CREDIT, existing.amount, reference);
      r := Success(());
    }

    method Reject(id: nat) returns (r: Result<(), Money.MoneyError>)
      requires Valid()
      modifies tables, rows`payouts
      ensures Valid()
      ensures Money.Handled(Contents(tables, rows), r) == Money.Reject(old(Contents(tables, rows)), id)
    {
      hide Money.Inv;
      KeptIsValid(tables, rows);
      Money.InvDo(Contents(tables, rows), Money.Rejected(id));
      if id >= |rows.payouts| { return Failure(Money.FromLedger(NOT_FOUND)); }
      if rows.payouts[id].status != Money.PayoutStatus.PENDING { return Failure(Money.PAYOUT_NOT_PENDING); }
      r := Release(id, Money.REJECTED, PayoutRejectedRef(id));
    }

    method Cancel(id: nat, userId: nat) returns (r: Result<(), Money.MoneyError>)
      requires Valid()
      modifies tables, rows`payouts
      ensures Valid()
      ensures Money.Handled(Contents(tables, rows), r) == Money.Cancel(old(Contents(tables, rows)), id, userId)
    {
      hide Money.Inv;
      KeptIsValid(tables, rows);
      Money.InvDo(Contents(tables, rows), Money.Cancelled(id, userId));
      if id >= |rows.payouts| { return Failure(Money.FromLedger(NOT_FOUND)); }
      if rows.payouts[id].userId != userId { return Failure(Money.FromLedger(NOT_FOUND)); }
      if rows.payouts[id].status != Money.PayoutStatus.PENDING { return Failure(Money.PAYOUT_NOT_PENDING); }
      r := Release(id, Money.PayoutStatus.CANCELLED, PayoutCancelledRef(id));
    }
  }
}
