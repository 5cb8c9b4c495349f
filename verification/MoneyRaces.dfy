/** What overlapping refunds of one payment add up to. */
module MoneyRaces {
  import opened Common
  import opened PaymentTypes
  import opened Ledger
  import opened Money
  import opened MoneyRuns
  import opened MoneyFlows

  datatype Ask = Ask(amount: int, provider: ProviderRefund)

  function AskedSum(asked: seq<Ask>): int {
    if asked == [] then 0 else AskedSum(asked[..|asked| - 1]) + asked[|asked| - 1].amount
  }

  // Refunds of one payment that write one after another without summing again.
  function RecordAll(c: Core, id: nat, asked: seq<Ask>): (r: Core)
    requires Ready(c) && id < |c.payments|
    ensures Ready(r) && r.payments == c.payments
  {
    if asked == [] then c else
      var n := |asked| - 1;
      RecordRefund(RecordAll(c, id, asked[..n]), id, asked[n].amount, asked[n].provider).core
  }

  // A refund that writes late keeps the tables sound exactly when it would be admitted at that moment.
  lemma LateRefundKeepsExactly(c: Core, id: nat, amount: int, provider: ProviderRefund)
    requires Inv(c) && id < |c.payments| && c.payments[id].status == SUCCEEDED && 0 < amount
    ensures Ready(c) && (Inv(RecordRefund(c, id, amount, provider).core) <==> RefundAdmitted(c, id, amount))
  {
    hide Sound, EntryOk, PaymentOk, PayoutOk, Conserved;
    InvIsReady(c);
    var h, r := RecordRefund(c, id, amount, provider), |c.refunds|;
    var row := Refund(id, amount, if provider == Refunded then COMPLETED else PENDING_MANUAL);
    RefundedSumPush(c.refunds, row, id);
    if RefundAdmitted(c, id, amount) {
      AddRefundKeeps(c, row);
      assert Count(c.db.entries, RefundRef(r)) == 0 by { assert RefundOk(c, r); }
      if IsTopup(c.payments[id]) {
        SettleRefundKeeps(c.(refunds := c.refunds + [row]), r);
      }
    } else {
      assert h.core.refunds == c.refunds + [row] && h.core.refunds[r] == row;
      assert !RefundOk(h.core, r);
    }
  }

  // Any number of refunds that summed the earlier ones before any of them wrote its row stay within
  // the payment, and keep the tables sound, exactly when they would have been admitted as one.
  lemma OverlappingRefundsFitExactly(c: Core, id: nat, asked: seq<Ask>)
    requires Inv(c) && id < |c.payments| && c.payments[id].status == SUCCEEDED && asked != []
    requires forall k :: 0 <= k < |asked| ==> RefundAdmitted(c, id, asked[k].amount)
    ensures Ready(c)
    ensures var after := RecordAll(c, id, asked);
      && (RefundedSum(after.refunds, id) <= c.payments[id].amount <==> RefundAdmitted(c, id, AskedSum(asked)))
      && (Inv(after) <==> RefundAdmitted(c, id, AskedSum(asked)))
  {
    hide Inv;
    InvIsReady(c);
    AllRecorded(c, id, asked);
    SumIsPositive(asked);
    if RefundAdmitted(c, id, AskedSum(asked)) {
      FittingRefundsKeep(c, id, asked);
    } else if Inv(RecordAll(c, id, asked)) {
      RefundsAreCapped(RecordAll(c, id, asked), id);
      RefundedNotNegative(c, id);
    }
  }

  lemma RefundedNotNegative(c: Core, id: nat)
    requires Inv(c)
    ensures 0 <= RefundedSum(c.refunds, id)
  {
    hide Inv;
    RefundFlowBounds(c, |c.refunds|, id);
    assert c.refunds[..|c.refunds|] == c.refunds;
  }

  lemma {:induction false} FittingRefundsKeep(c: Core, id: nat, asked: seq<Ask>)
    requires Inv(c) && Ready(c) && id < |c.payments| && c.payments[id].status == SUCCEEDED
    requires forall k :: 0 <= k < |asked| ==> 0 < asked[k].amount
    requires RefundedSum(c.refunds, id) + AskedSum(asked) <= c.payments[id].amount
    ensures Inv(RecordAll(c, id, asked))
  {
    hide Inv, RecordRefund;
    if asked != [] {
      var n := |asked| - 1;
      FittingRefundsKeep(c, id, asked[..n]);
      AllRecorded(c, id, asked[..n]);
      LateRefundKeepsExactly(RecordAll(c, id, asked[..n]), id, asked[n].amount, asked[n].provider);
    }
  }

  lemma {:induction false} SumIsPositive(asked: seq<Ask>)
    requires asked != [] && forall k :: 0 <= k < |asked| ==> 0 < asked[k].amount
    ensures 0 < AskedSum(asked)
  {
    if |asked| > 1 {
      SumIsPositive(asked[..|asked| - 1]);
    }
  }

  lemma {:induction false} AllRecorded(c: Core, id: nat, asked: seq<Ask>)
    requires Ready(c) && id < |c.payments|
    ensures RefundedSum(RecordAll(c, id, asked).refunds, id) == RefundedSum(c.refunds, id) + AskedSum(asked)
  {
    hide WithWallet, LedgerCall, RecordRefund;
    if asked != [] {
      var n := |asked| - 1;
      var before := RecordAll(c, id, asked[..n]);
      AllRecorded(c, id, asked[..n]);
      RecordAppends(before, id, asked[n].amount, asked[n].provider);
      RefundedSumPush(before.refunds, RecordAll(c, id, asked).refunds[|before.refunds|], id);
    }
  }

  lemma InvIsReady(c: Core)
    requires Inv(c)
    ensures Ready(c)
  {}

  lemma RecordAppends(c: Core, id: nat, amount: int, provider: ProviderRefund)
    requires Ready(c) && id < |c.payments|
    ensures var r := RecordRefund(c, id, amount, provider).core.refunds;
      |r| == |c.refunds| + 1 && r == c.refunds + [r[|c.refunds|]] && r[|c.refunds|].paymentId == id
      && r[|c.refunds|].amount == amount
  {}

  // No entry names a refund that has no row yet.
  ghost predicate NoneAhead(c: Core) {
    forall r :: |c.refunds| <= r ==> Count(c.db.entries, RefundRef(r)) == 0
  }

  // What the refunds among them that the wallet could bear have taken out.
  function Taken(c: Core, id: nat, asked: seq<Ask>): int
    requires Ready(c) && id < |c.payments|
  {
    if asked == [] then 0 else
      var n := |asked| - 1;
      var h := RecordRefund(RecordAll(c, id, asked[..n]), id, asked[n].amount, asked[n].provider);
      Taken(c, id, asked[..n]) + (if h.answer.Success? then asked[n].amount else 0)
  }

  lemma SumRefPush(entries: seq<Entry>, e: Entry, r: Reference)
    ensures SumRef(entries + [e], r) == SumRef(entries, r) + (if e.reference == r then Signed(e) else 0)
  {
    assert (entries + [e])[..|entries|] == entries;
  }

  lemma {:induction false} SameFlow(entries: seq<Entry>, entries': seq<Entry>, refunds: seq<Refund>, row: Refund,
                                    n: nat, id: nat)
    requires n <= |refunds|
    requires forall r :: 0 <= r < |refunds| ==> SumRef(entries', RefundRef(r)) == SumRef(entries, RefundRef(r))
    ensures RefundFlow(entries', refunds + [row], n, id) == RefundFlow(entries, refunds, n, id)
  {
    if n > 0 {
      SameFlow(entries, entries', refunds, row, n - 1, id);
    }
  }

  // A refund of a top-up that is debited takes its amount out of the net effect; one that is not
  // leaves it.
  lemma RecordNetEffect(c: Core, id: nat, amount: int, provider: ProviderRefund)
    requires Ready(c) && NoneAhead(c) && id < |c.payments| && IsTopup(c.payments[id]) && 0 < amount
    ensures var h := RecordRefund(c, id, amount, provider);
      && NoneAhead(h.core)
      && NetEffect(h.core, id) == NetEffect(c, id) - (if h.answer.Success? then amount else 0)
  {
    hide OneWalletPerUser, FreshWalletId, Count, SumRef, RefundFlow;
    var h, n := RecordRefund(c, id, amount, provider), |c.refunds|;
    var row := Refund(id, amount, if provider == Refunded then COMPLETED else PENDING_MANUAL);
    var (w, c2) := WithWallet(c.(refunds := c.refunds + [row]), c.payments[id].userId);
    var e := Entry(c.nextEntry, w, c2.db.wallets[w].userId, DEBIT, amount, RefundRef(n));
    assert h.core.db.entries == c.db.entries + if h.answer.Success? then [e] else [];
    forall r ensures Count(c.db.entries + [e], r) == Count(c.db.entries, r) + (if RefundRef(n) == r then 1 else 0) {
      CountPush(c.db.entries, e, r);
    }
    forall r
      ensures SumRef(c.db.entries + [e], r) == SumRef(c.db.entries, r) + (if RefundRef(n) == r then -amount else 0)
    {
      SumRefPush(c.db.entries, e, r);
    }
    assert SumRef(c.db.entries, RefundRef(n)) == 0 by { NoEntryNoSum(c.db.entries, RefundRef(n)); }
    assert c.db.entries + [] == c.db.entries;
    SameFlow(c.db.entries, h.core.db.entries, c.refunds, row, n, id);
    RefundFlowPush(h.core.db.entries, c.refunds, row, id);
  }

  lemma NoEntryNoSum(entries: seq<Entry>, r: Reference)
    requires Count(entries, r) == 0
    ensures SumRef(entries, r) == 0
  {
    CountNone(entries, r);
    SumRefIsCount(entries, r, 0);
  }

  lemma RefundFlowPush(entries: seq<Entry>, refunds: seq<Refund>, row: Refund, id: nat)
    ensures var n := |refunds|;
      RefundFlow(entries, refunds + [row], n + 1, id)
      == RefundFlow(entries, refunds + [row], n, id) + (if row.paymentId == id then SumRef(entries, RefundRef(n)) else 0)
  {}

  // So any number of overlapping refunds take out exactly the amounts of those the wallet could bear,
  // whatever was admitted.
  lemma {:induction false} OverlappingRefundsTakeOut(c: Core, id: nat, asked: seq<Ask>)
    requires Ready(c) && NoneAhead(c) && id < |c.payments| && IsTopup(c.payments[id])
    requires forall k :: 0 <= k < |asked| ==> 0 < asked[k].amount
    ensures var after := RecordAll(c, id, asked);
      NoneAhead(after) && NetEffect(after, id) == NetEffect(c, id) - Taken(c, id, asked)
  {
    hide NoneAhead, RecordRefund, NetEffect, OneWalletPerUser, FreshWalletId;
    if asked != [] {
      var n := |asked| - 1;
      OverlappingRefundsTakeOut(c, id, asked[..n]);
      RecordNetEffect(RecordAll(c, id, asked[..n]), id, asked[n].amount, asked[n].provider);
    }
  }

  lemma InvIsNoneAhead(c: Core)
    requires Inv(c)
    ensures NoneAhead(c)
  {
    forall r | |c.refunds| <= r ensures Count(c.db.entries, RefundRef(r)) == 0 {
      assert RefundOk(c, r);
    }
  }

  // User 7 tops up 100 a second time.
  const TWO_TOP_UPS :=
    FIRST_TOP_UP + [Initiated(7, 100, "wallet_topup", Some("B")), CalledBack(1, "B", true, true)]

  const SECOND := Entry(2, 1, 7, CREDIT, 100, PaymentRef(1))

  const TWICE := Core(Db(map[1 := Wallet(7, 200)], [FIRST, SECOND]), 2, 3,
    [Payment(7, 100, "wallet_topup", SUCCEEDED, Some("A")), Payment(7, 100, "wallet_topup", SUCCEEDED, Some("B"))],
    [], [])

  lemma SecondTopUp()
    ensures Ready(ONCE) && Ready(Do(ONCE, TWO_TOP_UPS[2]))
    ensures Do(Do(ONCE, TWO_TOP_UPS[2]), TWO_TOP_UPS[3]) == TWICE
  {
    var c1 := Do(ONCE, TWO_TOP_UPS[2]);
    OnlyWallet(c1, 1, 7);
    assert Reconcile(c1, 1).core.db == Db(map[1 := Wallet(7, 200)], [FIRST, SECOND]);
  }

  lemma TwoTopUpsRun()
    ensures Inv(INITIAL) && Run(INITIAL, TWO_TOP_UPS) == TWICE && Inv(TWICE)
  {
    hide Inv, Do;
    InitialInv();
    RunKeepsInv(INITIAL, TWO_TOP_UPS);
    FirstTopUp();
    SecondTopUp();
    var c1 := Do(INITIAL, TWO_TOP_UPS[0]);
    InvDo(INITIAL, TWO_TOP_UPS[0]);
    InvDo(c1, TWO_TOP_UPS[1]);
    var c2 := Do(c1, TWO_TOP_UPS[1]);
    InvDo(c2, TWO_TOP_UPS[2]);
    var c3 := Do(c2, TWO_TOP_UPS[2]);
    InvDo(c3, TWO_TOP_UPS[3]);
    var last := TWO_TOP_UPS[3];
    assert TWO_TOP_UPS[1..][1..] == TWO_TOP_UPS[2..] && TWO_TOP_UPS[2..][1..] == [last] && [last][1..] == [];
    assert Run(c3, [last]) == Run(Do(c3, last), []);
    assert Run(c2, TWO_TOP_UPS[2..]) == Run(c3, [last]);
    assert Run(c1, TWO_TOP_UPS[1..]) == Run(c2, TWO_TOP_UPS[2..]);
  }

  // A debit the wallet can bear is made, and leaves the rest.
  lemma RecordSucceeds(c: Core, id: nat, w: nat, amount: int, provider: ProviderRefund)
    requires Ready(c) && id < |c.payments| && IsTopup(c.payments[id])
    requires w in c.db.wallets && c.db.wallets[w].userId == c.payments[id].userId
    requires 0 < amount <= c.db.wallets[w].balance
    ensures var h := RecordRefund(c, id, amount, provider);
      && h.answer.Success? && w in h.core.db.wallets
      && h.core.db.wallets[w] == c.db.wallets[w].(balance := c.db.wallets[w].balance - amount)
  {
    OnlyWallet(c, w, c.payments[id].userId);
  }

  // Two full refunds of the first top-up that both passed the check before either wrote: both are
  // debited, they add up to twice the payment, and its net effect is negative.
  lemma OverlappingRefundsOverpay()
    ensures Inv(INITIAL)
    ensures var c, asked := Run(INITIAL, TWO_TOP_UPS), [Ask(100, NotSupported), Ask(100, NotSupported)];
      && Inv(c) && |c.payments| == 2 && c.payments[0] == Payment(7, 100, "wallet_topup", SUCCEEDED, Some("A"))
      && RefundAdmitted(c, 0, 100)
      && var after := RecordAll(c, 0, asked);
         && RefundedSum(after.refunds, 0) == 200 && NetEffect(after, 0) == -100 && !Inv(after)
  {
    hide Inv, Run, NetEffect, NoneAhead;
    TwoTopUpsRun();
    InvIsReady(TWICE);
    InvIsNoneAhead(TWICE);
    TwiceNetEffect();
    TwiceTaken();
    var asked := [Ask(100, NotSupported), Ask(100, NotSupported)];
    OverlappingRefundsTakeOut(TWICE, 0, asked);
    AllRecorded(TWICE, 0, asked);
    assert AskedSum(asked[..1]) == 100;
    if Inv(RecordAll(TWICE, 0, asked)) {
      RefundsAreCapped(RecordAll(TWICE, 0, asked), 0);
    }
  }

  lemma TwiceNetEffect()
    ensures NetEffect(TWICE, 0) == 100
  {
    assert TWICE.db.entries[..1] == [FIRST];
    assert SumRef([FIRST], PaymentRef(0)) == 100;
  }

  lemma TwiceTaken()
    ensures Ready(TWICE) && Taken(TWICE, 0, [Ask(100, NotSupported), Ask(100, NotSupported)]) == 200
  {
    hide RecordRefund;
    var asked := [Ask(100, NotSupported), Ask(100, NotSupported)];
    RecordSucceeds(TWICE, 0, 1, 100, NotSupported);
    var h := RecordRefund(TWICE, 0, 100, NotSupported);
    RecordSucceeds(h.core, 0, 1, 100, NotSupported);
    assert asked[..1] == [Ask(100, NotSupported)] && asked[..1][..0] == [];
    assert RecordAll(TWICE, 0, asked[..1]) == h.core;
    assert Taken(TWICE, 0, asked[..1]) == 100;
  }
}
