/** Decisions on payouts as the read and the write they are, with any number of them overlapping. */
module PayoutMachine {
  import opened Common
  import opened PaymentTypes
  import opened Ledger
  import opened Money
  import MoneyRuns

  // approve, reject, cancel and markPaid.
  datatype Choice = APPROVE | REJECT | CANCEL | PAY

  datatype Order = Order(choice: Choice, payoutId: nat)

  // A handler that has read the row; while waiting, it has passed its checks and not yet written.
  datatype Decision = Decision(order: Order, waiting: bool)

  // written lists the orders entered so far, oldest first.
  datatype State = State(core: Core, decisions: seq<Decision>, written: seq<Order>)

  datatype Step =
    | Look(order: Order, userId: nat)
    | Write(i: nat)
    | Drop(i: nat)
    | Whole(event: Event)

  const START := State(INITIAL, [], [])

  function Target(choice: Choice): PayoutStatus {
    match choice
    case APPROVE => APPROVED
    case REJECT => REJECTED
    case CANCEL => PayoutStatus.CANCELLED
    case PAY => PAID
  }

  // Orders that give the money back, and statuses under which it has been given back.
  predicate Frees(o: Order) {
    o.choice in {REJECT, CANCEL}
  }

  predicate Freed(status: PayoutStatus) {
    status.REJECTED? || status.CANCELLED?
  }

  // What each handler checks on the row it reads.
  predicate Admits(c: Core, o: Order, userId: nat) {
    && o.payoutId < |c.payouts|
    && (o.choice == CANCEL ==> c.payouts[o.payoutId].userId == userId)
    && c.payouts[o.payoutId].status == (if o.choice == PAY then APPROVED else PayoutStatus.PENDING)
  }

  // The write names the row by its id alone and does not look at the status again.
  function Enter(c: Core, o: Order): Core
    requires o.payoutId < |c.payouts|
  {
    match o.choice
    case APPROVE => SetPayout(c, o.payoutId, APPROVED)
    case PAY => SetPayout(c, o.payoutId, PAID)
    case REJECT => Release(c, o.payoutId, REJECTED, PayoutRejectedRef(o.payoutId)).core
    case CANCEL => Release(c, o.payoutId, PayoutStatus.CANCELLED, PayoutCancelledRef(o.payoutId)).core
  }

  predicate Waiting(s: State, i: nat) {
    i < |s.decisions| && s.decisions[i].waiting
  }

  function Act(s: State, step: Step): State
    requires Ready(s.core)
    requires forall i: nat :: Waiting(s, i) ==> s.decisions[i].order.payoutId < |s.core.payouts|
  {
    match step
    case Look(o, user) => s.(decisions := s.decisions + [Decision(o, Admits(s.core, o, user))])
    case Write(i) =>
      if !Waiting(s, i) then s
      else
        var d := s.decisions[i];
        State(Enter(s.core, d.order), s.decisions[i := d.(waiting := false)], s.written + [d.order])
    case Drop(i) =>
      if !Waiting(s, i) then s else s.(decisions := s.decisions[i := s.decisions[i].(waiting := false)])
    // The other handlers run whole; a decision is only made by looking and writing.
    case Whole(e) => if IsDecision(e) then s else s.(core := Do(s.core, e))
  }

  // ------------------------------------------------------------------ what the writes add up to

  // The status the last write on a payout gave it.
  function Last(written: seq<Order>, id: nat): PayoutStatus {
    if written == [] then PayoutStatus.PENDING else
      var n := |written| - 1;
      if written[n].payoutId == id then Target(written[n].choice) else Last(written[..n], id)
  }

  predicate Known(payouts: seq<Payout>, written: seq<Order>) {
    forall k :: 0 <= k < |written| ==> written[k].payoutId < |payouts|
  }

  // The amounts of the writes that met a payout whose money had been given back.
  function LateSum(payouts: seq<Payout>, written: seq<Order>): int
    requires Known(payouts, written)
  {
    if written == [] then 0 else
      var n := |written| - 1;
      var id := written[n].payoutId;
      LateSum(payouts, written[..n]) + (if Freed(Last(written[..n], id)) then payouts[id].amount else 0)
  }

  // No write follows one that gave the same payout's money back.
  ghost predicate Clean(written: seq<Order>) {
    forall i, j :: 0 <= i < j < |written| && written[i].payoutId == written[j].payoutId ==> !Frees(written[i])
  }

  // What the balances hold beyond what top-ups, refunds and payouts account for.
  ghost function Gap(c: Core): int {
    Total(c.db) - (Volume(c.db.entries, TOPUP, CREDIT) - Volume(c.db.entries, REFUND, DEBIT) - Held(c.payouts))
  }

  lemma {:induction false} CleanLast(written: seq<Order>, id: nat)
    requires Clean(written)
    ensures Freed(Last(written, id)) <==>
      exists i :: 0 <= i < |written| && written[i].payoutId == id && Frees(written[i])
  {
    if written != [] {
      var n := |written| - 1;
      CleanLast(written[..n], id);
      if i :| 0 <= i < |written| && written[i].payoutId == id && Frees(written[i]) {
        if i < n {
          assert written[..n][i].payoutId == id;
        }
      }
      if i :| 0 <= i < n && written[..n][i].payoutId == id && Frees(written[..n][i]) {
        assert written[i].payoutId == id;
      }
    }
  }

  lemma {:induction false} LateSumExactly(payouts: seq<Payout>, written: seq<Order>)
    requires Known(payouts, written)
    requires forall id :: 0 <= id < |payouts| ==> 0 < payouts[id].amount
    ensures 0 <= LateSum(payouts, written) && (LateSum(payouts, written) == 0 <==> Clean(written))
  {
    if written != [] {
      var n := |written| - 1;
      var id := written[n].payoutId;
      LateSumExactly(payouts, written[..n]);
      if Clean(written[..n]) {
        CleanLast(written[..n], id);
        CleanPush(written[..n], written[n]);
        assert written[..n] + [written[n]] == written;
      } else {
        var i, j :| 0 <= i < j < n && written[..n][i].payoutId == written[..n][j].payoutId && Frees(written[..n][i]);
        assert written[i].payoutId == written[j].payoutId;
      }
    }
  }

  lemma CleanPush(written: seq<Order>, o: Order)
    requires Clean(written)
    ensures Clean(written + [o]) <==>
      !exists i :: 0 <= i < |written| && written[i].payoutId == o.payoutId && Frees(written[i])
  {
    var all := written + [o];
    if i :| 0 <= i < |written| && written[i].payoutId == o.payoutId && Frees(written[i]) {
      assert all[i].payoutId == all[|written|].payoutId;
    }
  }

  lemma CleanPrefix(written: seq<Order>, o: Order)
    requires Clean(written + [o])
    ensures Clean(written)
  {
    forall i, j | 0 <= i < j < |written| && written[i].payoutId == written[j].payoutId ensures !Frees(written[i]) {
      assert (written + [o])[i] == written[i] && (written + [o])[j] == written[j];
    }
  }

  lemma {:induction false} SameLateSum(payouts: seq<Payout>, payouts': seq<Payout>, written: seq<Order>)
    requires Known(payouts, written) && |payouts| <= |payouts'|
    requires forall id :: 0 <= id < |payouts| ==> payouts'[id].amount == payouts[id].amount
    ensures Known(payouts', written) && LateSum(payouts', written) == LateSum(payouts, written)
  {
    if written != [] {
      SameLateSum(payouts, payouts', written[..|written| - 1]);
    }
  }

  // ------------------------------------------------------------------ handlers beside the decisions

  ghost predicate Sane(c: Core) {
    && Ready(c)
    && (forall id :: 0 <= id < |c.payouts| ==> 0 < c.payouts[id].amount && c.payouts[id].walletId in c.db.wallets)
  }

  // Payouts keep their rows, new ones are PENDING, no release is posted, and no money appears.
  ghost predicate Beside(c: Core, c': Core) {
    && Sane(c') && |c.payouts| <= |c'.payouts| && c'.payouts[..|c.payouts|] == c.payouts
    && (forall id :: |c.payouts| <= id < |c'.payouts| ==> c'.payouts[id].status == PayoutStatus.PENDING)
    && (forall id :: Count(c'.db.entries, PayoutRejectedRef(id)) == Count(c.db.entries, PayoutRejectedRef(id)))
    && (forall id :: Count(c'.db.entries, PayoutCancelledRef(id)) == Count(c.db.entries, PayoutCancelledRef(id)))
    && Gap(c') == Gap(c)
  }

  // One movement, whatever else is wrong with the tables.
  lemma MoveEffect(c: Core, w: nat, kind: Kind, amount: int, reference: Reference)
    requires Sane(c) && w in c.db.wallets
    ensures var c' := Move(c, w, kind, amount, reference);
      && Sane(c')
      && (forall r :: Count(c'.db.entries, r) == Count(c.db.entries, r) + (if r == reference then 1 else 0))
      && Gap(c') == Gap(c) + (if kind == CREDIT then amount else -amount)
           - (if FlowOf(reference) == TOPUP && kind == CREDIT then amount else 0)
           + (if FlowOf(reference) == REFUND && kind == DEBIT then amount else 0)
  {
    hide Total, Volume, Count, Held;
    var c' := Move(c, w, kind, amount, reference);
    var e := Entry(c.nextEntry, w, c.db.wallets[w].userId, kind, amount, reference);
    assert c'.db.entries == c.db.entries + [e];
    PostTotal(c.db, w, kind, amount, reference, c.nextEntry);
    VolumePush(c.db.entries, e, TOPUP, CREDIT);
    VolumePush(c.db.entries, e, REFUND, DEBIT);
    forall r ensures Count(c'.db.entries, r) == Count(c.db.entries, r) + (if r == reference then 1 else 0) {
      CountPush(c.db.entries, e, r);
    }
  }

  lemma OpeningBeside(c: Core, userId: nat)
    requires Sane(c)
    ensures Beside(c, WithWallet(c, userId).1)
  {
    hide Volume, Count, Held;
    OpeningKeepsTotal(c.db, userId, c.nextWallet);
  }

  lemma ReconcileBeside(c: Core, id: nat)
    requires Sane(c)
    ensures Beside(c, Reconcile(c, id).core)
  {
    hide Gap, Count, HasEntry, OneWalletPerUser, FreshWalletId;
    if id < |c.payments| && !HasEntry(c.db.entries, PaymentRef(id)) && IsTopup(c.payments[id]) {
      var (w, c1) := WithWallet(c, c.payments[id].userId);
      OpeningBeside(c, c.payments[id].userId);
      if 0 < c.payments[id].amount {
        MoveEffect(c1, w, CREDIT, c.payments[id].amount, PaymentRef(id));
      }
    }
  }

  lemma RecordBeside(c: Core, id: nat, amount: int, provider: ProviderRefund)
    requires Sane(c) && id < |c.payments|
    ensures Beside(c, RecordRefund(c, id, amount, provider).core)
  {
    hide Count, OneWalletPerUser, FreshWalletId;
    var c1 := c.(refunds := c.refunds + [Refund(id, amount, if provider == Refunded then COMPLETED else PENDING_MANUAL)]);
    if IsTopup(c.payments[id]) {
      var (w, c2) := WithWallet(c1, c.payments[id].userId);
      OpeningBeside(c1, c.payments[id].userId);
      if 0 < amount <= c2.db.wallets[w].balance {
        MoveEffect(c2, w, DEBIT, amount, RefundRef(|c.refunds|));
      }
    }
  }

  lemma RequestBeside(c: Core, userId: nat, amount: int, ibanValid: bool)
    requires Sane(c)
    ensures Beside(c, RequestPayout(c, userId, amount, ibanValid).core)
  {
    hide Count, Volume, Total, OneWalletPerUser, FreshWalletId;
    var owned := OwnedBy(c.db.wallets, userId);
    if ibanValid && 0 < amount && owned.Some? && amount <= c.db.wallets[owned.value].balance {
      var c1 := c.(payouts := c.payouts + [Payout(userId, owned.value, amount, PayoutStatus.PENDING)]);
      assert c1.payouts[..|c.payouts|] == c.payouts;
      assert Held(c1.payouts) == Held(c.payouts) + amount;
      MoveEffect(c1, owned.value, DEBIT, amount, PayoutRef(|c.payouts|));
    }
  }

  lemma TransferBeside(c: Core, v: nat, w: nat, amount: int, text: string)
    requires Sane(c)
    ensures Beside(c, TransferFunds(c, v, w, amount, text).core)
  {
    hide Gap, Count, OneWalletPerUser, FreshWalletId;
    if Apply(c.db, Transfer(v, w, amount, CallerRef(text)), c.nextEntry, c.nextEntry + 1).Success? {
      MoveEffect(c, v, DEBIT, amount, CallerRef(text));
      var c1 := Move(c, v, DEBIT, amount, CallerRef(text));
      MoveEffect(c1, w, CREDIT, amount, CallerRef(text));
      assert TransferFunds(c, v, w, amount, text).core == Move(c1, w, CREDIT, amount, CallerRef(text));
    }
  }

  lemma WholeBeside(c: Core, e: Event)
    requires Sane(c) && !IsDecision(e)
    ensures Beside(c, Do(c, e))
  {
    hide OneWalletPerUser, FreshWalletId, Count, Volume, Held, Total, Reconcile, RecordRefund, RequestPayout,
      TransferFunds, RefundAdmitted;
    match e
    case OpenedWallet(user) => OpeningBeside(c, user);
    case Initiated(user, amount, purpose, provider) =>
    case CalledBack(id, reference, ok, verified) => ReconcileBeside(c, id);
    case RefundAsked(id, asked, provider) =>
      if id < |c.payments| {
        RecordBeside(c, id, if asked.Some? then asked.value else c.payments[id].amount, provider);
      }
    case RefundMarked(id) =>
    case PayoutAsked(user, amount, ibanValid) => RequestBeside(c, user, amount, ibanValid);
    case Transferred(v, w, amount, text) => TransferBeside(c, v, w, amount, text);
  }

  // ------------------------------------------------------------------ the writes

  // A write sets the row's status; one that gives the money back also posts the release, and a write
  // onto a payout whose money was given back already leaves the amount unaccounted for.
  lemma EnterEffect(c: Core, o: Order)
    requires Sane(c) && o.payoutId < |c.payouts|
    ensures var c', p := Enter(c, o), c.payouts[o.payoutId];
      && Sane(c') && c'.payouts == c.payouts[o.payoutId := p.(status := Target(o.choice))]
      && (forall id :: Count(c'.db.entries, PayoutRejectedRef(id))
            == Count(c.db.entries, PayoutRejectedRef(id)) + (if o == Order(REJECT, id) then 1 else 0))
      && (forall id :: Count(c'.db.entries, PayoutCancelledRef(id))
            == Count(c.db.entries, PayoutCancelledRef(id)) + (if o == Order(CANCEL, id) then 1 else 0))
      && Gap(c') == Gap(c) + (if Freed(p.status) then p.amount else 0)
  {
    hide Count, Volume, Total, OneWalletPerUser, FreshWalletId;
    var p := c.payouts[o.payoutId];
    var c1 := SetPayout(c, o.payoutId, Target(o.choice));
    HeldUpdate(c.payouts, o.payoutId, c1.payouts[o.payoutId]);
    assert Sane(c1);
    assert Gap(c1) == Gap(c) - Hold(p) + Hold(p.(status := Target(o.choice)));
    assert Hold(p) == if Freed(p.status) then 0 else p.amount;
    if Frees(o) {
      var reference := if o.choice == REJECT then PayoutRejectedRef(o.payoutId) else PayoutCancelledRef(o.payoutId);
      MoveEffect(c1, p.walletId, CREDIT, p.amount, reference);
      assert Enter(c, o) == Move(c1, p.walletId, CREDIT, p.amount, reference);
    }
  }

  // On sound tables a write keeps them sound exactly when the payout still holds its money, and then
  // whatever its status is: also PAID, which a late rejection turns into REJECTED with a release.
  lemma WriteKeepsExactly(c: Core, o: Order)
    requires Inv(c) && o.payoutId < |c.payouts|
    ensures Inv(Enter(c, o)) <==> !Freed(c.payouts[o.payoutId].status)
    ensures Enter(c, o).payouts == c.payouts[o.payoutId := c.payouts[o.payoutId].(status := Target(o.choice))]
  {
    hide EntryOk, PaymentOk, RefundOk, Sound, Total, Volume, Held;
    InvIsSane(c);
    EnterEffect(c, o);
    assert PayoutOk(c, o.payoutId);
    if !Freed(c.payouts[o.payoutId].status) {
      match o.choice
      case APPROVE => SetPayoutKeeps(c, o.payoutId, APPROVED);
      case PAY => SetPayoutKeeps(c, o.payoutId, PAID);
      case REJECT => ReleaseKeeps(c, o.payoutId, REJECTED, PayoutRejectedRef(o.payoutId));
      case CANCEL => ReleaseKeeps(c, o.payoutId, PayoutStatus.CANCELLED, PayoutCancelledRef(o.payoutId));
    }
  }

  lemma InvIsSane(c: Core)
    requires Inv(c)
    ensures Sane(c) && Gap(c) == 0
  {
    forall id | 0 <= id < |c.payouts| ensures 0 < c.payouts[id].amount && c.payouts[id].walletId in c.db.wallets {
      assert PayoutOk(c, id);
    }
  }

  // ------------------------------------------------------------------ runs

  ghost predicate Valid(s: State) {
    && Sane(s.core) && Known(s.core.payouts, s.written)
    && (forall i: nat :: Waiting(s, i) ==> s.decisions[i].order.payoutId < |s.core.payouts|)
    && (forall id :: 0 <= id < |s.core.payouts| ==> s.core.payouts[id].status == Last(s.written, id))
    && (forall id :: Count(s.core.db.entries, PayoutRejectedRef(id)) == multiset(s.written)[Order(REJECT, id)])
    && (forall id :: Count(s.core.db.entries, PayoutCancelledRef(id)) == multiset(s.written)[Order(CANCEL, id)])
    && Gap(s.core) == LateSum(s.core.payouts, s.written)
    && (Clean(s.written) ==> Inv(s.core))
  }

  lemma ValidStart()
    ensures Valid(START)
  {
    MoneyRuns.InitialInv();
    InvIsSane(INITIAL);
  }

  lemma ValidIsSane(s: State)
    requires Valid(s)
    ensures Sane(s.core) && Ready(s.core)
    ensures forall i: nat :: Waiting(s, i) ==> s.decisions[i].order.payoutId < |s.core.payouts|
  {}

  lemma LookValid(s: State, o: Order, userId: nat)
    requires Valid(s)
    ensures Valid(Act(s, Look(o, userId)))
  {
    hide OneWalletPerUser, FreshWalletId, Inv, Count, Gap, LateSum, Clean, Last;
    var s' := Act(s, Look(o, userId));
    forall i: nat | Waiting(s', i) ensures s'.decisions[i].order.payoutId < |s.core.payouts| {
      assert i < |s.decisions| ==> Waiting(s, i);
    }
  }

  lemma DropValid(s: State, i: nat)
    requires Valid(s)
    ensures Valid(Act(s, Drop(i)))
  {
    hide OneWalletPerUser, FreshWalletId, Inv, Count, Gap, LateSum, Clean, Last;
    var s' := Act(s, Drop(i));
    forall j: nat | Waiting(s', j) ensures s'.decisions[j].order.payoutId < |s.core.payouts| {
      assert Waiting(s, j);
    }
  }

  lemma {:induction false} UnwrittenIsPending(payouts: seq<Payout>, written: seq<Order>, id: nat)
    requires Known(payouts, written) && |payouts| <= id
    ensures Last(written, id) == PayoutStatus.PENDING
  {
    if written != [] {
      UnwrittenIsPending(payouts, written[..|written| - 1], id);
    }
  }

  lemma WholeValid(s: State, e: Event)
    requires Valid(s)
    ensures Valid(Act(s, Whole(e)))
  {
    hide OneWalletPerUser, FreshWalletId, Inv, Do, Count, Gap, LateSum, Clean, Last;
    if !IsDecision(e) {
      var s' := Act(s, Whole(e));
      WholeBeside(s.core, e);
      SameLateSum(s.core.payouts, s'.core.payouts, s.written);
      if Clean(s.written) {
        InvDo(s.core, e);
      }
      forall i: nat | Waiting(s', i) ensures s'.decisions[i].order.payoutId < |s'.core.payouts| {
        assert Waiting(s, i);
      }
      forall id | 0 <= id < |s'.core.payouts| ensures s'.core.payouts[id].status == Last(s.written, id) {
        if id < |s.core.payouts| {
          assert s'.core.payouts[..|s.core.payouts|][id] == s.core.payouts[id];
        } else {
          UnwrittenIsPending(s.core.payouts, s.written, id);
        }
      }
    }
  }

  lemma WriteValid(s: State, i: nat)
    requires Valid(s)
    ensures Valid(Act(s, Write(i)))
  {
    hide OneWalletPerUser, FreshWalletId, Inv, Enter, Count, Gap, Freed, Clean;
    if Waiting(s, i) {
      var s', o := Act(s, Write(i)), s.decisions[i].order;
      EnterEffect(s.core, o);
      assert s'.written[..|s.written|] == s.written;
      SameLateSum(s.core.payouts, s'.core.payouts, s.written);
      forall j: nat | Waiting(s', j) ensures s'.decisions[j].order.payoutId < |s'.core.payouts| {
        assert Waiting(s, j);
      }
      CleanWriteKeeps(s, o);
    }
  }

  lemma CleanWriteKeeps(s: State, o: Order)
    requires Valid(s) && o.payoutId < |s.core.payouts|
    ensures Clean(s.written + [o]) ==> Inv(Enter(s.core, o))
  {
    hide Sane, Inv, Enter, Count, Gap, Freed, Clean, LateSum;
    if Clean(s.written + [o]) {
      CleanPrefix(s.written, o);
      CleanPush(s.written, o);
      CleanLast(s.written, o.payoutId);
      WriteKeepsExactly(s.core, o);
    }
  }

  lemma ActValid(s: State, step: Step)
    requires Valid(s)
    ensures Valid(Act(s, step))
  {
    hide Valid, Act;
    ValidIsSane(s);
    match step
    case Look(o, user) => LookValid(s, o, user);
    case Write(i) => WriteValid(s, i);
    case Drop(i) => DropValid(s, i);
    case Whole(e) => WholeValid(s, e);
  }

  ghost function Run(s: State, steps: seq<Step>): (r: State)
    requires Valid(s)
    ensures Valid(r)
    decreases |steps|
  {
    if steps == [] then s else
      ActValid(s, steps[0]);
      Run(Act(s, steps[0]), steps[1..])
  }
}
