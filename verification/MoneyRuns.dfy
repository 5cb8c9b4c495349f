/** The guarantees of payments, refunds and payouts over any run of whole handlers. */
module MoneyRuns {
  import opened Common
  import opened PaymentTypes
  import opened Ledger
  import opened Money

  ghost function Run(c: Core, events: seq<Event>): Core
    requires Inv(c)
    decreases |events|
  {
    if events == [] then c else
      InvDo(c, events[0]);
      Run(Do(c, events[0]), events[1..])
  }

  lemma {:induction false} RunKeepsInv(c: Core, events: seq<Event>)
    requires Inv(c)
    ensures Inv(Run(c, events))
    decreases |events|
  {
    hide Do;
    if events != [] {
      InvDo(c, events[0]);
      RunKeepsInv(Do(c, events[0]), events[1..]);
    }
  }

  lemma InitialInv()
    ensures Inv(INITIAL)
  {
    assert Total(INITIAL.db) == 0;
  }

  // ------------------------------------------------------------------ conservation

  // All wallets together hold what was topped up, less what was refunded out of wallets, less what
  // payouts hold or have paid.
  lemma {:induction false} MoneyIsConserved(events: seq<Event>)
    ensures Inv(INITIAL)
    ensures var c := Run(INITIAL, events);
      Total(c.db) == Volume(c.db.entries, TOPUP, CREDIT) - Volume(c.db.entries, REFUND, DEBIT) - Held(c.payouts)
  {
    InitialInv();
    RunKeepsInv(INITIAL, events);
  }

  // ------------------------------------------------------------------ payouts

  predicate BelongsTo(e: Entry, payoutId: nat) {
    e.reference in {PayoutRef(payoutId), PayoutRejectedRef(payoutId), PayoutCancelledRef(payoutId)}
  }

  // A payout has one hold of its amount, and one release exactly when it was rejected or cancelled.
  lemma {:induction false} PayoutEntries(events: seq<Event>, id: nat)
    ensures Inv(INITIAL)
    ensures var c := Run(INITIAL, events);
      id < |c.payouts| ==>
        var p, es := c.payouts[id], c.db.entries;
        && Count(es, PayoutRef(id)) == 1
        && Count(es, PayoutRejectedRef(id)) + Count(es, PayoutCancelledRef(id))
           == (if p.status == REJECTED || p.status == PayoutStatus.CANCELLED then 1 else 0)
        && (Count(es, PayoutRejectedRef(id)) == 1 <==> p.status == REJECTED)
        && (forall k :: 0 <= k < |es| ==> BelongsTo(es[k], id) ==>
              && es[k].amount == p.amount && es[k].walletId == p.walletId
              && es[k].kind == (if es[k].reference == PayoutRef(id) then DEBIT else CREDIT))
  {
    hide Sound, FreshWalletId, RefundOk, PaymentOk, Conserved;
    InitialInv();
    RunKeepsInv(INITIAL, events);
    var c := Run(INITIAL, events);
    assert PayoutOk(c, id);
    forall k | 0 <= k < |c.db.entries| ensures EntryOk(c, c.db.entries[k]) {}
  }

  predicate Final(status: PayoutStatus) {
    status in {REJECTED, PayoutStatus.CANCELLED, PAID}
  }

  lemma PayoutStep(c: Core, e: Event, id: nat)
    requires Inv(c) && id < |c.payouts|
    ensures var c' := Do(c, e);
      && id < |c'.payouts| && c'.payouts[id] == c.payouts[id].(status := c'.payouts[id].status)
      && (c'.payouts[id].status != c.payouts[id].status ==>
            (c.payouts[id].status, c'.payouts[id].status)
            in {(PayoutStatus.PENDING, APPROVED), (PayoutStatus.PENDING, REJECTED),
                (PayoutStatus.PENDING, PayoutStatus.CANCELLED), (APPROVED, PAID)})
  {
    hide Sound, FreshWalletId, Conserved, PayoutOk, PaymentOk, RefundOk, EntryOk;
  }

  // Rejected, cancelled and paid payouts never change again, and no payout changes hands or size.
  lemma {:induction false} PayoutsAreFinal(c: Core, events: seq<Event>, id: nat)
    requires Inv(c) && id < |c.payouts|
    ensures var c' := Run(c, events);
      && id < |c'.payouts| && c'.payouts[id] == c.payouts[id].(status := c'.payouts[id].status)
      && (Final(c.payouts[id].status) ==> c'.payouts[id] == c.payouts[id])
    decreases |events|
  {
    if events != [] {
      PayoutStep(c, events[0], id);
      InvDo(c, events[0]);
      PayoutsAreFinal(Do(c, events[0]), events[1..], id);
    }
  }

  // Callbacks run one after another never move a terminal payment.
  lemma {:induction false} PaymentsAreFinal(c: Core, events: seq<Event>, id: nat)
    requires Inv(c) && id < |c.payments| && Terminal(c.payments[id].status)
    ensures var c' := Run(c, events); id < |c'.payments| && c'.payments[id] == c.payments[id]
    decreases |events|
  {
    if events != [] {
      PaymentStep(c, events[0], id);
      InvDo(c, events[0]);
      PaymentsAreFinal(Do(c, events[0]), events[1..], id);
    }
  }

  lemma PaymentStep(c: Core, e: Event, id: nat)
    requires Inv(c) && id < |c.payments| && Terminal(c.payments[id].status)
    ensures id < |Do(c, e).payments| && Do(c, e).payments[id] == c.payments[id]
  {
    hide Sound, Conserved, PayoutOk, PaymentOk, RefundOk, EntryOk;
  }

  // ------------------------------------------------------------------ refunds

  // The signed sum of the entries that carry one reference.
  function SumRef(entries: seq<Entry>, r: Reference): int {
    if entries == [] then 0 else
      var n := |entries| - 1;
      SumRef(entries[..n], r) + (if entries[n].reference == r then Signed(entries[n]) else 0)
  }

  lemma {:induction false} SumRefIsCount(entries: seq<Entry>, r: Reference, x: int)
    requires forall k :: 0 <= k < |entries| && entries[k].reference == r ==> Signed(entries[k]) == x
    ensures SumRef(entries, r) == Count(entries, r) * x
  {
    if entries != [] {
      SumRefIsCount(entries[..|entries| - 1], r, x);
    }
  }

  // What the refunds of a payment, among the first n, have moved in the ledger.
  function RefundFlow(entries: seq<Entry>, refunds: seq<Refund>, n: nat, id: nat): int
    requires n <= |refunds|
  {
    if n == 0 then 0 else
      RefundFlow(entries, refunds, n - 1, id)
      + (if refunds[n - 1].paymentId == id then SumRef(entries, RefundRef(n - 1)) else 0)
  }

  function NetEffect(c: Core, id: nat): int {
    SumRef(c.db.entries, PaymentRef(id)) + RefundFlow(c.db.entries, c.refunds, |c.refunds|, id)
  }

  lemma OneRefundFlow(c: Core, r: nat)
    requires Inv(c) && r < |c.refunds|
    ensures -c.refunds[r].amount <= SumRef(c.db.entries, RefundRef(r)) <= 0
  {
    hide Sound, FreshWalletId, Conserved, PayoutOk, PaymentOk, RefundedSum, SumRef;
    assert RefundOk(c, r);
    forall k | 0 <= k < |c.db.entries| && c.db.entries[k].reference == RefundRef(r)
      ensures Signed(c.db.entries[k]) == -c.refunds[r].amount
    {
      assert EntryOk(c, c.db.entries[k]);
    }
    SumRefIsCount(c.db.entries, RefundRef(r), -c.refunds[r].amount);
  }

  lemma {:induction false} RefundFlowBounds(c: Core, n: nat, id: nat)
    requires Inv(c) && n <= |c.refunds|
    ensures -RefundedSum(c.refunds[..n], id) <= RefundFlow(c.db.entries, c.refunds, n, id) <= 0
  {
    hide Inv, SumRef;
    if n > 0 {
      RefundFlowBounds(c, n - 1, id);
      OneRefundFlow(c, n - 1);
      assert c.refunds[..n][..n - 1] == c.refunds[..n - 1];
    }
  }

  lemma {:induction false} NoRefunds(c: Core, n: nat, id: nat)
    requires n <= |c.refunds| && forall r :: 0 <= r < n ==> c.refunds[r].paymentId != id
    ensures RefundedSum(c.refunds[..n], id) == 0 && RefundFlow(c.db.entries, c.refunds, n, id) == 0
  {
    if n > 0 {
      NoRefunds(c, n - 1, id);
      assert c.refunds[..n][..n - 1] == c.refunds[..n - 1];
    }
  }

  // Refunds of a payment, whatever their status, add up to at most its amount; without any refund
  // they add up to nothing.
  lemma RefundsAreCapped(c: Core, id: nat)
    requires Inv(c) && id < |c.payments|
    ensures RefundedSum(c.refunds, id) == 0 || RefundedSum(c.refunds, id) <= c.payments[id].amount
  {
    assert c.refunds[..|c.refunds|] == c.refunds;
    if r :| 0 <= r < |c.refunds| && c.refunds[r].paymentId == id {
      assert RefundOk(c, r);
    } else {
      NoRefunds(c, |c.refunds|, id);
    }
  }

  // Over any run: refunds within the amount, at most one debit each and of the refund's amount, and
  // the top-up's credit less its refund debits stays between zero and the amount, also when a debit
  // failed for lack of funds.
  lemma {:induction false} RefundGuarantees(events: seq<Event>, id: nat)
    ensures Inv(INITIAL)
    ensures var c := Run(INITIAL, events);
      && (id < |c.payments| ==> RefundedSum(c.refunds, id) == 0 || RefundedSum(c.refunds, id) <= c.payments[id].amount)
      && Count(c.db.entries, RefundRef(id)) <= 1
      && (forall k :: 0 <= k < |c.db.entries| && c.db.entries[k].reference == RefundRef(id) ==>
            id < |c.refunds| && c.db.entries[k].kind == DEBIT && c.db.entries[k].amount == c.refunds[id].amount)
      && (id < |c.payments| && IsTopup(c.payments[id]) ==>
            0 <= NetEffect(c, id) && (NetEffect(c, id) == 0 || NetEffect(c, id) <= c.payments[id].amount))
  {
    InitialInv();
    RunKeepsInv(INITIAL, events);
    var c := Run(INITIAL, events);
    assert RefundOk(c, id);
    forall k | 0 <= k < |c.db.entries| && c.db.entries[k].reference == RefundRef(id)
      ensures EntryOk(c, c.db.entries[k])
    {}
    if id < |c.payments| {
      RefundsAreCapped(c, id);
      if IsTopup(c.payments[id]) {
        NetEffectBounds(c, id);
      }
    }
  }

  lemma NetEffectBounds(c: Core, id: nat)
    requires Inv(c) && id < |c.payments| && IsTopup(c.payments[id])
    ensures 0 <= NetEffect(c, id) && (NetEffect(c, id) == 0 || NetEffect(c, id) <= c.payments[id].amount)
  {
    hide OneWalletPerUser, Conserved, PayoutOk, Computed;
    var es, n := c.db.entries, |c.refunds|;
    assert PaymentOk(c, id);
    forall k | 0 <= k < |es| && es[k].reference == PaymentRef(id) ensures Signed(es[k]) == c.payments[id].amount {
      assert EntryOk(c, es[k]);
    }
    SumRefIsCount(es, PaymentRef(id), c.payments[id].amount);
    RefundFlowBounds(c, n, id);
    RefundsAreCapped(c, id);
    assert c.refunds[..n] == c.refunds;
    if Count(es, PaymentRef(id)) == 0 {
      forall r | 0 <= r < n ensures c.refunds[r].paymentId != id {
        assert RefundOk(c, r);
      }
      NoRefunds(c, n, id);
    } else {
      CountNone(es, PaymentRef(id));
      var k :| 0 <= k < |es| && es[k].reference == PaymentRef(id);
      assert EntryOk(c, es[k]) && es[k] in es;
    }
  }

  // An accepted refund of a top-up is debited at once; one the wallet cannot bear keeps its row,
  // which counts against the cap, and is never debited by this handler.
  lemma RefundOutcome(c: Core, id: nat, asked: Option<int>, provider: ProviderRefund)
    requires Inv(c) && id < |c.payments| && IsTopup(c.payments[id])
    ensures var h, r := RequestRefund(c, id, asked, provider), |c.refunds|;
      && (h.answer.Success? ==> h.answer == Success(r) && Count(h.core.db.entries, RefundRef(r)) == 1)
      && (h.answer == Failure(CANNOT_REFUND_INSUFFICIENT_BALANCE) ==>
            |h.core.refunds| == r + 1 && Count(h.core.db.entries, RefundRef(r)) == 0)
      && (h.answer.Failure? && h.answer.error != CANNOT_REFUND_INSUFFICIENT_BALANCE ==> h.core == c)
  {
    hide RequestRefund;
    assert RefundOk(c, |c.refunds|);
    NewRefundOutcome(c, id, asked, provider);
  }

  lemma NewRefundOutcome(c: Core, id: nat, asked: Option<int>, provider: ProviderRefund)
    requires Ready(c) && id < |c.payments| && IsTopup(c.payments[id])
    requires Count(c.db.entries, RefundRef(|c.refunds|)) == 0
    ensures var h, r := RequestRefund(c, id, asked, provider), |c.refunds|;
      && (h.answer.Success? ==> h.answer == Success(r) && Count(h.core.db.entries, RefundRef(r)) == 1)
      && (h.answer == Failure(CANNOT_REFUND_INSUFFICIENT_BALANCE) ==>
            |h.core.refunds| == r + 1 && Count(h.core.db.entries, RefundRef(r)) == 0)
      && (h.answer.Failure? && h.answer.error != CANNOT_REFUND_INSUFFICIENT_BALANCE ==> h.core == c)
  {
    hide RefundedSum, RefundAdmitted, RecordRefund;
    var amount := if asked.Some? then asked.value else c.payments[id].amount;
    if 0 < amount {
      RecordOutcome(c, id, amount, provider);
    }
  }

  // The row always stays; the debit is posted unless the funds are missing.
  lemma RecordOutcome(c: Core, id: nat, amount: int, provider: ProviderRefund)
    requires Ready(c) && id < |c.payments| && IsTopup(c.payments[id]) && 0 < amount
    requires Count(c.db.entries, RefundRef(|c.refunds|)) == 0
    ensures var h, r := RecordRefund(c, id, amount, provider), |c.refunds|;
      && (h.answer == Success(r) || h.answer == Failure(CANNOT_REFUND_INSUFFICIENT_BALANCE))
      && |h.core.refunds| == r + 1
      && Count(h.core.db.entries, RefundRef(r)) == if h.answer.Success? then 1 else 0
  {
    hide OneWalletPerUser;
    var r := |c.refunds|;
    var c1 := c.(refunds := c.refunds + [Refund(id, amount, if provider == Refunded then COMPLETED else PENDING_MANUAL)]);
    var (w, c2) := WithWallet(c1, c.payments[id].userId);
    assert c2.db.entries == c.db.entries;
    CountPush(c.db.entries, Entry(c.nextEntry, w, c2.db.wallets[w].userId, DEBIT, amount, RefundRef(r)), RefundRef(r));
  }
}
