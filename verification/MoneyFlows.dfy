/** What payments, refunds and payouts handled one after another add up to. */
module MoneyFlows {
  import opened Common
  import opened PaymentTypes
  import opened Ledger
  import opened Money
  import opened MoneyRuns

  // ------------------------------------------------------------------ a top-up from end to end

  function BalanceOf(c: Core, userId: nat): int
    requires Ready(c)
  {
    var w := OwnedBy(c.db.wallets, userId);
    if w.Some? then c.db.wallets[w.value].balance else 0
  }

  // A new top-up's verified callback puts the amount on the user's balance, and every later callback
  // changes nothing.
  lemma TopUpPaysIn(c: Core, userId: nat, amount: int, reference: string)
    requires Inv(c) && 0 < amount
    ensures var started, id := Initiate(c, userId, amount, "wallet_topup", Some(reference)).core, |c.payments|;
      && Ready(started)
      && var done := HandleCallback(started, id, reference, true, true);
         && done.answer == Success(SUCCEEDED) && Ready(done.core)
         && BalanceOf(done.core, userId) == BalanceOf(c, userId) + amount
         && Total(done.core.db) == Total(c.db) + amount
         && forall again, ok, verified ::
              HandleCallback(done.core, id, again, ok, verified) == Handled(done.core, Success(SUCCEEDED))
  {
    var started, id := Initiate(c, userId, amount, "wallet_topup", Some(reference)).core, |c.payments|;
    InitiateKeeps(c, userId, amount, "wallet_topup", Some(reference));
    NewPaymentUncredited(c, id);
    CreditPaysIn(started, id);
    assert HandleCallback(started, id, reference, true, true).core.db == Reconcile(started, id).core.db;
  }

  lemma NewPaymentUncredited(c: Core, id: nat)
    requires Inv(c) && |c.payments| <= id
    ensures !HasEntry(c.db.entries, PaymentRef(id))
  {
    forall k | 0 <= k < |c.db.entries| ensures c.db.entries[k].reference != PaymentRef(id) {
      assert EntryOk(c, c.db.entries[k]);
    }
  }

  lemma CreditPaysIn(c: Core, id: nat)
    requires Inv(c) && id < |c.payments| && IsTopup(c.payments[id]) && 0 < c.payments[id].amount
    requires !HasEntry(c.db.entries, PaymentRef(id))
    ensures var r, user, amount := Reconcile(c, id), c.payments[id].userId, c.payments[id].amount;
      && r.answer == Success(()) && Ready(r.core) && BalanceOf(r.core, user) == BalanceOf(c, user) + amount
      && Total(r.core.db) == Total(c.db) + amount
  {
    hide HasEntry, Computed, Conserved, EntryOk, PaymentOk, RefundOk, PayoutOk;
    var user, amount := c.payments[id].userId, c.payments[id].amount;
    var (w, c1) := WithWallet(c, user);
    OpeningKeepsSound(c.db, user, c.nextWallet);
    OnlyWallet(c1, w, user);
    assert BalanceOf(c1, user) == BalanceOf(c, user) by {
      if OwnedBy(c.db.wallets, user).Some? { OnlyWallet(c, OwnedBy(c.db.wallets, user).value, user); }
    }
    PostTotal(c1.db, w, CREDIT, amount, PaymentRef(id), c1.nextEntry);
    var c2 := Move(c1, w, CREDIT, amount, PaymentRef(id));
    OnlyWallet(c2, w, user);
  }

  lemma OnlyWallet(c: Core, w: nat, user: nat)
    requires OneWalletPerUser(c.db.wallets) && w in c.db.wallets && c.db.wallets[w].userId == user
    ensures OwnedBy(c.db.wallets, user) == Some(w)
  {}

  // User 7 tops up 100, from the start.
  const FIRST_TOP_UP := [Initiated(7, 100, "wallet_topup", Some("A")), CalledBack(0, "A", true, true)]

  const FIRST := Entry(1, 1, 7, CREDIT, 100, PaymentRef(0))

  const ONCE := Core(Db(map[1 := Wallet(7, 100)], [FIRST]), 2, 2,
    [Payment(7, 100, "wallet_topup", SUCCEEDED, Some("A"))], [], [])

  lemma FirstTopUp()
    ensures Ready(INITIAL) && Ready(Do(INITIAL, FIRST_TOP_UP[0]))
    ensures Do(Do(INITIAL, FIRST_TOP_UP[0]), FIRST_TOP_UP[1]) == ONCE
  {
    var c1 := Do(INITIAL, FIRST_TOP_UP[0]);
    assert Reconcile(c1, 0).core.db == Db(map[1 := Wallet(7, 100)], [FIRST]);
  }

  // ------------------------------------------------------------------ completing a refund

  // Completing a refund by hand happens at most once, changes that row's status only, and moves no
  // money and no sum of refunds.
  lemma CompletionMovesNoMoney(c: Core, id: nat)
    ensures var h := MarkRefundCompleted(c, id);
      && h.core == c.(refunds := h.core.refunds)
      && (forall payment :: RefundedSum(h.core.refunds, payment) == RefundedSum(c.refunds, payment))
      && (h.answer.Success? <==> id < |c.refunds| && c.refunds[id].status == PENDING_MANUAL)
      && (h.answer.Success? ==> h.core.refunds == c.refunds[id := c.refunds[id].(status := COMPLETED)])
      && (h.answer.Failure? ==>
            h == Handled(c, Failure(if id < |c.refunds| then REFUND_NOT_PENDING else FromLedger(NOT_FOUND))))
      && MarkRefundCompleted(h.core, id).answer.Failure?
  {
    var h := MarkRefundCompleted(c, id);
    forall payment: nat ensures RefundedSum(h.core.refunds, payment) == RefundedSum(c.refunds, payment) {
      SumIgnoresStatus(c.refunds, h.core.refunds, payment);
    }
  }

  // ------------------------------------------------------------------ the way to PAID

  ghost predicate Marked(events: seq<Event>, id: nat) {
    exists j :: 0 <= j < |events| && events[j] == MarkedPaid(id)
  }

  ghost predicate ApprovedThenMarked(events: seq<Event>, id: nat) {
    exists i :: 0 <= i < |events| && events[i] == Approved(id) && Marked(events[i + 1..], id)
  }

  lemma MarkedLater(events: seq<Event>, id: nat)
    requires events != []
    ensures Marked(events[1..], id) || events[0] == MarkedPaid(id) ==> Marked(events, id)
    ensures ApprovedThenMarked(events[1..], id) || (events[0] == Approved(id) && Marked(events[1..], id)) ==>
      ApprovedThenMarked(events, id)
  {
    if j :| 0 <= j < |events[1..]| && events[1..][j] == MarkedPaid(id) {
      assert events[j + 1] == MarkedPaid(id);
    }
    if i :| 0 <= i < |events[1..]| && events[1..][i] == Approved(id) && Marked(events[1..][i + 1..], id) {
      assert events[i + 1] == Approved(id) && events[1..][i + 1..] == events[i + 1 + 1..];
    }
  }

  // Which step makes a payout APPROVED or PAID, and that a new payout is PENDING.
  lemma PayoutChange(c: Core, e: Event, id: nat)
    requires Inv(c)
    ensures var c' := Do(c, e);
      && |c.payouts| <= |c'.payouts|
      && (|c.payouts| <= id < |c'.payouts| ==> c'.payouts[id].status == PayoutStatus.PENDING)
      && (id < |c.payouts| && c'.payouts[id].status == PAID ==> c.payouts[id].status == PAID || e == MarkedPaid(id))
      && (id < |c.payouts| && c'.payouts[id].status == PAID && c.payouts[id].status != PAID ==>
            c.payouts[id].status == APPROVED)
      && (id < |c.payouts| && c'.payouts[id].status == APPROVED ==> c.payouts[id].status == APPROVED || e == Approved(id))
  {
    hide Sound, Conserved, PayoutOk, PaymentOk, RefundOk, EntryOk;
  }

  lemma {:induction false} PaidWasMarked(c: Core, events: seq<Event>, id: nat)
    requires Inv(c) && id < |c.payouts| && c.payouts[id].status != PAID
    requires id < |Run(c, events).payouts| && Run(c, events).payouts[id].status == PAID
    ensures Marked(events, id)
    decreases |events|
  {
    hide Do, Marked;
    if events != [] {
      InvDo(c, events[0]);
      PayoutChange(c, events[0], id);
      MarkedLater(events, id);
      if Do(c, events[0]).payouts[id].status != PAID {
        PaidWasMarked(Do(c, events[0]), events[1..], id);
      }
    }
  }

  lemma {:induction false} PaidWasApproved(c: Core, events: seq<Event>, id: nat)
    requires Inv(c) && (id < |c.payouts| ==> c.payouts[id].status == PayoutStatus.PENDING)
    requires id < |Run(c, events).payouts| && Run(c, events).payouts[id].status !in {PayoutStatus.PENDING, APPROVED}
    ensures Run(c, events).payouts[id].status == PAID ==> ApprovedThenMarked(events, id)
    decreases |events|
  {
    hide Do, Marked, ApprovedThenMarked;
    if events != [] && Run(c, events).payouts[id].status == PAID {
      var c' := Do(c, events[0]);
      InvDo(c, events[0]);
      PayoutChange(c, events[0], id);
      MarkedLater(events, id);
      if id < |c'.payouts| && c'.payouts[id].status == APPROVED {
        PaidWasMarked(c', events[1..], id);
      } else if id < |c'.payouts| && c'.payouts[id].status != PayoutStatus.PENDING {
        PayoutsAreFinal(c', events[1..], id);
      } else {
        PaidWasApproved(c', events[1..], id);
      }
    }
  }

  // No payout is paid that was not approved first and marked paid after that.
  lemma OnlyApprovedPayoutsArePaid(events: seq<Event>, id: nat)
    ensures Inv(INITIAL)
    ensures var c := Run(INITIAL, events);
      id < |c.payouts| && c.payouts[id].status == PAID ==> ApprovedThenMarked(events, id)
  {
    hide Run;
    InitialInv();
    if id < |Run(INITIAL, events).payouts| && Run(INITIAL, events).payouts[id].status == PAID {
      PaidWasApproved(INITIAL, events, id);
    }
  }
}
