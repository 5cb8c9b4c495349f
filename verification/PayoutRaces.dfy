/** What overlapping decisions on payouts keep and break, over any run of them. */
module PayoutRaces {
  import opened Common
  import opened PaymentTypes
  import opened Ledger
  import opened Money
  import MoneyRuns
  import MoneyFlows
  import opened PayoutMachine

  // Over every run, however the decisions overlap: each written rejection or cancellation posted one
  // release, the balances are off by exactly the late writes, and the tables are sound, and the money
  // conserved, exactly when no write followed one that had given the same payout's money back.
  lemma OverlapsExactly(steps: seq<Step>)
    ensures Valid(START)
    ensures var s := Run(START, steps);
      && Known(s.core.payouts, s.written) && Gap(s.core) == LateSum(s.core.payouts, s.written)
      && (forall id :: Count(s.core.db.entries, PayoutRejectedRef(id)) == multiset(s.written)[Order(REJECT, id)])
      && (forall id :: Count(s.core.db.entries, PayoutCancelledRef(id)) == multiset(s.written)[Order(CANCEL, id)])
      && (Conserved(s.core) <==> Clean(s.written))
      && (Inv(s.core) <==> Clean(s.written))
  {
    hide Clean, Count, Run, LateSum;
    ValidStart();
    var s := Run(START, steps);
    LateSumExactly(s.core.payouts, s.written);
  }

  // Two decisions that both read the payout as PENDING: the tables stay sound exactly when the first
  // to write is the approval; otherwise the wallet gains the amount once more than the tables account for.
  lemma TwoDecisionsExactly(c: Core, first: Order, second: Order)
    requires Inv(c) && first.payoutId < |c.payouts| && second.payoutId == first.payoutId
    requires c.payouts[first.payoutId].status == PayoutStatus.PENDING && first.choice != PAY && second.choice != PAY
    ensures var c1 := Enter(c, first);
      && |c1.payouts| == |c.payouts|
      && (Inv(Enter(c1, second)) <==> first.choice == APPROVE)
      && Gap(Enter(c1, second)) == if first.choice == APPROVE then 0 else c.payouts[first.payoutId].amount
  {
    hide Inv, Enter, Gap;
    InvIsSane(c);
    WriteKeepsExactly(c, first);
    EnterEffect(c, first);
    var c1 := Enter(c, first);
    WriteKeepsExactly(c1, second);
    EnterEffect(c1, second);
  }

  // ------------------------------------------------------------------ what is still waiting

  // From here on nobody looks again.
  ghost predicate NoLooks(steps: seq<Step>) {
    forall k :: 0 <= k < |steps| ==> !steps[k].Look?
  }

  // No waiting decision would meet a payout whose money is back, and none that gives money back shares
  // its payout with another.
  ghost predicate Compatible(s: State)
    requires Valid(s)
  {
    && (forall i: nat :: Waiting(s, i) ==> !Freed(s.core.payouts[s.decisions[i].order.payoutId].status))
    && (forall i: nat, j: nat ::
          (Waiting(s, i) && Waiting(s, j) && i != j
           && s.decisions[i].order.payoutId == s.decisions[j].order.payoutId) ==> !Frees(s.decisions[i].order))
  }

  lemma CompatibleStep(s: State, step: Step)
    requires Valid(s) && Inv(s.core) && Compatible(s) && !step.Look?
    ensures Valid(Act(s, step)) && Inv(Act(s, step).core) && Compatible(Act(s, step))
  {
    hide OneWalletPerUser, FreshWalletId, Inv, Do, Enter, Count, Gap, LateSum, Clean, Last, Known;
    ActValid(s, step);
    var s' := Act(s, step);
    forall i: nat | Waiting(s', i) ensures Waiting(s, i) && s'.decisions[i].order == s.decisions[i].order {}
    match step
    case Write(i) =>
      if Waiting(s, i) {
        WriteKeepsExactly(s.core, s.decisions[i].order);
      }
    case Drop(i) =>
    case Whole(e) =>
      if !IsDecision(e) {
        InvDo(s.core, e);
        SamePayouts(s.core, e);
      }
  }

  lemma SamePayouts(c: Core, e: Event)
    requires Sane(c) && !IsDecision(e)
    ensures |c.payouts| <= |Do(c, e).payouts|
    ensures forall id :: 0 <= id < |c.payouts| ==> Do(c, e).payouts[id] == c.payouts[id]
  {
    hide Do, Count, Gap;
    WholeBeside(c, e);
    forall id | 0 <= id < |c.payouts| ensures Do(c, e).payouts[id] == c.payouts[id] {
      assert Do(c, e).payouts[..|c.payouts|][id] == c.payouts[id];
    }
  }

  lemma {:induction false} CompatibleRun(s: State, steps: seq<Step>)
    requires Valid(s) && Inv(s.core) && Compatible(s) && NoLooks(steps)
    ensures Inv(Run(s, steps).core)
    decreases |steps|
  {
    hide Inv, Act, Valid, Compatible;
    ValidIsSane(s);
    if steps != [] {
      CompatibleStep(s, steps[0]);
      CompatibleRun(Act(s, steps[0]), steps[1..]);
    }
  }

  lemma RunTwo(s: State, a: Step, b: Step)
    requires Valid(s)
    ensures Valid(Act(s, a)) && Run(s, [a]) == Act(s, a) && Run(s, [a, b]) == Act(Act(s, a), b)
  {
    hide Valid, Act;
    ValidIsSane(s);
    ActValid(s, a);
    ValidIsSane(Act(s, a));
    ActValid(Act(s, a), b);
    assert [a, b][1..] == [b] && [a][1..] == [] && [b][1..] == [];
    assert Run(Act(s, a), [b]) == Run(Act(Act(s, a), b), []);
  }

  // A waiting decision on a payout whose money is back breaks the tables when it is written.
  lemma LateBreaks(s: State, i: nat)
    requires Valid(s) && Inv(s.core) && Waiting(s, i)
    requires Freed(s.core.payouts[s.decisions[i].order.payoutId].status)
    ensures !Inv(Run(s, [Write(i)]).core)
  {
    hide Inv, Enter, Run;
    RunTwo(s, Write(i), Write(i));
    WriteKeepsExactly(s.core, s.decisions[i].order);
  }

  // So do two on one payout, the one that gives the money back first.
  lemma PairBreaks(s: State, i: nat, j: nat)
    requires Valid(s) && Inv(s.core) && Waiting(s, i) && Waiting(s, j) && i != j
    requires !Freed(s.core.payouts[s.decisions[i].order.payoutId].status)
    requires s.decisions[i].order.payoutId == s.decisions[j].order.payoutId && Frees(s.decisions[i].order)
    ensures !Inv(Run(s, [Write(i), Write(j)]).core)
  {
    hide Inv, Enter, Run;
    RunTwo(s, Write(i), Write(j));
    WriteKeepsExactly(s.core, s.decisions[i].order);
    WriteKeepsExactly(Act(s, Write(i)).core, s.decisions[j].order);
  }

  // Any number of waiting decisions: in whatever order they are written or dropped, and whatever else
  // runs in between, the tables stay sound exactly when the decisions are compatible.
  lemma WaitingDecisionsExactly(s: State)
    requires Valid(s) && Inv(s.core)
    ensures (forall steps :: NoLooks(steps) ==> Inv(Run(s, steps).core)) <==> Compatible(s)
  {
    hide Inv, Run, Valid, Act;
    ValidIsSane(s);
    if Compatible(s) {
      forall steps | NoLooks(steps) ensures Inv(Run(s, steps).core) {
        CompatibleRun(s, steps);
      }
    } else if i: nat :| Waiting(s, i) && Freed(s.core.payouts[s.decisions[i].order.payoutId].status) {
      LateBreaks(s, i);
      assert NoLooks([Write(i)]);
    } else {
      var i: nat, j: nat :| Waiting(s, i) && Waiting(s, j) && i != j
        && s.decisions[i].order.payoutId == s.decisions[j].order.payoutId && Frees(s.decisions[i].order);
      PairBreaks(s, i, j);
      assert NoLooks([Write(i), Write(j)]);
    }
  }

  // ------------------------------------------------------------------ final statuses

  ghost predicate Keeps(s: State, s': State, id: nat) {
    id < |s.core.payouts| && id < |s'.core.payouts| && s'.core.payouts[id] == s.core.payouts[id]
  }

  // Every decision still waiting on the payout would write the status it has.
  ghost predicate NoneElse(s: State, id: nat)
    requires id < |s.core.payouts|
  {
    forall i: nat :: Waiting(s, i) && s.decisions[i].order.payoutId == id ==>
      Target(s.decisions[i].order.choice) == s.core.payouts[id].status
  }

  lemma FinalStep(s: State, step: Step, id: nat)
    requires Valid(s) && id < |s.core.payouts| && MoneyRuns.Final(s.core.payouts[id].status) && NoneElse(s, id)
    ensures Valid(Act(s, step)) && Keeps(s, Act(s, step), id) && NoneElse(Act(s, step), id)
  {
    hide OneWalletPerUser, FreshWalletId, Inv, Do, Enter, Count, Gap, LateSum, Clean, Last, Known;
    ActValid(s, step);
    var s' := Act(s, step);
    forall i: nat | Waiting(s', i) && s'.decisions[i].order.payoutId == id
      ensures Waiting(s, i) && s'.decisions[i].order == s.decisions[i].order
    {}
    match step
    case Look(o, user) =>
    case Write(i) =>
      if Waiting(s, i) {
        EnterEffect(s.core, s.decisions[i].order);
      }
    case Drop(i) =>
    case Whole(e) =>
      if !IsDecision(e) {
        SamePayouts(s.core, e);
      }
  }

  lemma {:induction false} FinalStays(s: State, steps: seq<Step>, id: nat)
    requires Valid(s) && id < |s.core.payouts| && MoneyRuns.Final(s.core.payouts[id].status) && NoneElse(s, id)
    ensures Keeps(s, Run(s, steps), id)
    decreases |steps|
  {
    hide Act, Valid, NoneElse;
    ValidIsSane(s);
    if steps != [] {
      FinalStep(s, steps[0], id);
      FinalStays(Act(s, steps[0]), steps[1..], id);
    }
  }

  // A rejected, cancelled or paid payout keeps its row, whatever runs from here on, exactly when no
  // decision that read it earlier waits to write another status.
  lemma FinalExactly(s: State, id: nat)
    requires Valid(s) && id < |s.core.payouts| && MoneyRuns.Final(s.core.payouts[id].status)
    ensures (forall steps :: Keeps(s, Run(s, steps), id)) <==> NoneElse(s, id)
  {
    hide Run, Valid, Enter;
    ValidIsSane(s);
    if NoneElse(s, id) {
      forall steps ensures Keeps(s, Run(s, steps), id) {
        FinalStays(s, steps, id);
      }
    } else {
      var i: nat :| Waiting(s, i) && s.decisions[i].order.payoutId == id
        && Target(s.decisions[i].order.choice) != s.core.payouts[id].status;
      RunTwo(s, Write(i), Write(i));
      EnterEffect(s.core, s.decisions[i].order);
      assert !Keeps(s, Run(s, [Write(i)]), id);
    }
  }

  // ------------------------------------------------------------------ decisions that do not overlap

  function OrderOf(e: Event): Order
    requires IsDecision(e)
  {
    match e
    case Approved(id) => Order(APPROVE, id)
    case Rejected(id) => Order(REJECT, id)
    case MarkedPaid(id) => Order(PAY, id)
    case Cancelled(id, _) => Order(CANCEL, id)
  }

  // Each handler's steps without anything in between; n decisions have looked before.
  function OneByOne(events: seq<Event>, n: nat): seq<Step>
    decreases |events|
  {
    if events == [] then []
    else if !IsDecision(events[0]) then [Whole(events[0])] + OneByOne(events[1..], n)
    else
      var user := if events[0].Cancelled? then events[0].userId else 0;
      [Look(OrderOf(events[0]), user), Write(n)] + OneByOne(events[1..], n + 1)
  }

  lemma LookThenWrite(s: State, e: Event)
    requires Valid(s) && IsDecision(e)
    ensures var user := if e.Cancelled? then e.userId else 0;
      var looked := Act(s, Look(OrderOf(e), user));
      && Valid(looked) && Valid(Act(looked, Write(|s.decisions|)))
      && Act(looked, Write(|s.decisions|)).core == Do(s.core, e)
      && |Act(looked, Write(|s.decisions|)).decisions| == |s.decisions| + 1
  {
    hide Valid, Sane, Release;
    ValidIsSane(s);
    var user := if e.Cancelled? then e.userId else 0;
    ActValid(s, Look(OrderOf(e), user));
    ValidIsSane(Act(s, Look(OrderOf(e), user)));
    ActValid(Act(s, Look(OrderOf(e), user)), Write(|s.decisions|));
  }

  lemma RunSplit(s: State, a: Step, b: Step, rest: seq<Step>)
    requires Valid(s)
    ensures Valid(Act(s, a)) && Run(s, [a] + rest) == Run(Act(s, a), rest)
    ensures Valid(Act(Act(s, a), b)) && Run(s, [a, b] + rest) == Run(Act(Act(s, a), b), rest)
  {
    hide Valid, Act;
    ValidIsSane(s);
    ActValid(s, a);
    ValidIsSane(Act(s, a));
    ActValid(Act(s, a), b);
    assert ([a] + rest)[1..] == rest;
    assert ([a, b] + rest)[1..] == [b] + rest && ([b] + rest)[1..] == rest;
    assert Run(Act(s, a), [b] + rest) == Run(Act(Act(s, a), b), rest);
  }

  // Decisions whose write follows their read at once are the whole handlers.
  lemma {:induction false} OneByOneIsWhole(s: State, events: seq<Event>)
    requires Valid(s) && Inv(s.core)
    ensures Run(s, OneByOne(events, |s.decisions|)).core == MoneyRuns.Run(s.core, events)
    decreases |events|
  {
    hide Valid, Inv, Do, Act, Run, IsDecision, OrderOf;
    ValidIsSane(s);
    if events == [] {
      RunNothing(s);
    } else {
      var e, n := events[0], |s.decisions|;
      InvDo(s.core, e);
      if IsDecision(e) {
        var user := if e.Cancelled? then e.userId else 0;
        LookThenWrite(s, e);
        ValidIsSane(Act(s, Look(OrderOf(e), user)));
        RunSplit(s, Look(OrderOf(e), user), Write(n), OneByOne(events[1..], n + 1));
        OneByOneIsWhole(Act(Act(s, Look(OrderOf(e), user)), Write(n)), events[1..]);
      } else {
        WholeIsWhole(s, e);
        RunSplit(s, Whole(e), Drop(0), OneByOne(events[1..], n));
        OneByOneIsWhole(Act(s, Whole(e)), events[1..]);
      }
    }
  }

  lemma RunNothing(s: State)
    requires Valid(s)
    ensures Run(s, []) == s
  {}

  lemma WholeIsWhole(s: State, e: Event)
    requires Valid(s) && !IsDecision(e)
    ensures Valid(Act(s, Whole(e))) && Act(s, Whole(e)).core == Do(s.core, e)
    ensures Act(s, Whole(e)).decisions == s.decisions
  {
    hide Valid, Do, IsDecision;
    ValidIsSane(s);
    ActValid(s, Whole(e));
  }

  // ------------------------------------------------------------------ two runs from the beginning

  // What Act asks of a state.
  ghost predicate Legal(s: State) {
    && Ready(s.core)
    && (forall i: nat :: Waiting(s, i) ==> s.decisions[i].order.payoutId < |s.core.payouts|)
  }

  ghost predicate Follows(s: State, step: Step, s': State) {
    Legal(s) && s' == Act(s, step)
  }

  lemma {:induction false} RunThrough(states: seq<State>, steps: seq<Step>)
    requires |states| == |steps| + 1 && Valid(states[0])
    requires forall k :: 0 <= k < |steps| ==> Follows(states[k], steps[k], states[k + 1])
    ensures Run(states[0], steps) == states[|steps|]
    decreases |steps|
  {
    hide Valid, Act;
    if steps != [] {
      assert Follows(states[0], steps[0], states[1]);
      ActValid(states[0], steps[0]);
      RunThrough(states[1..], steps[1..]);
    }
  }

  lemma {:induction false} RunConcat(s: State, a: seq<Step>, b: seq<Step>)
    requires Valid(s)
    ensures Run(s, a + b) == Run(Run(s, a), b)
    decreases |a|
  {
    hide Valid, Act;
    ValidIsSane(s);
    if a == [] {
      assert a + b == b;
    } else {
      ActValid(s, a[0]);
      assert (a + b)[1..] == a[1..] + b;
      RunConcat(Act(s, a[0]), a[1..], b);
    }
  }

  // User 7 tops up 100 and asks for all of it as a payout.
  const FUNDED := [Whole(Initiated(7, 100, "wallet_topup", Some("A"))), Whole(CalledBack(0, "A", true, true)),
                   Whole(PayoutAsked(7, 100, true))]

  const CREDITED := MoneyFlows.FIRST
  const HELD := Entry(2, 1, 7, DEBIT, 100, PayoutRef(0))

  function WithStatus(status: PayoutStatus, balance: int, entries: seq<Entry>): Core {
    Core(Db(map[1 := Wallet(7, balance)], entries), 2, |entries| + 1,
         [Payment(7, 100, "wallet_topup", SUCCEEDED, Some("A"))], [], [Payout(7, 1, 100, status)])
  }

  lemma FundedCores()
    ensures Ready(INITIAL)
    ensures var c1 := Do(INITIAL, FUNDED[0].event);
      && Ready(c1)
      && var c2 := Do(c1, FUNDED[1].event);
         && Ready(c2) && Do(c2, FUNDED[2].event) == WithStatus(PayoutStatus.PENDING, 0, [CREDITED, HELD])
  {
    MoneyFlows.FirstTopUp();
    var c2 := Do(Do(INITIAL, FUNDED[0].event), FUNDED[1].event);
    MoneyFlows.OnlyWallet(c2, 1, 7);
    assert Do(c2, FUNDED[2].event).db == Db(map[1 := Wallet(7, 0)], [CREDITED, HELD]);
  }

  lemma FundedRun()
    ensures Valid(START)
    ensures Run(START, FUNDED) == State(WithStatus(PayoutStatus.PENDING, 0, [CREDITED, HELD]), [], [])
  {
    hide Valid, Run, Do;
    ValidStart();
    FundedCores();
    var c1 := Do(INITIAL, FUNDED[0].event);
    var c2 := Do(c1, FUNDED[1].event);
    RunThrough([START, State(c1, [], []), State(c2, [], []), State(Do(c2, FUNDED[2].event), [], [])], FUNDED);
  }

  const APPROVAL := Order(APPROVE, 0)
  const REJECTION := Order(REJECT, 0)
  const PAYMENT := Order(PAY, 0)
  const RELEASED := Entry(3, 1, 7, CREDIT, 100, PayoutRejectedRef(0))

  // After the funding, decisions on payout 0 that stand as given; the flags say which wait.
  function Stands(status: PayoutStatus, back: bool, decisions: seq<Decision>, written: seq<Order>): State {
    State(if back then WithStatus(status, 100, [CREDITED, HELD, RELEASED]) else WithStatus(status, 0, [CREDITED, HELD]),
          decisions, written)
  }

  // One payout: what looking at it and writing it do.
  lemma StandingFacts(status: PayoutStatus, back: bool)
    ensures var c := Stands(status, back, [], []).core;
      && Ready(c) && |c.payouts| == 1
      && (forall o, u :: Admits(c, o, u) <==>
            (o.payoutId == 0 && (o.choice == CANCEL ==> u == 7)
             && status == (if o.choice == PAY then APPROVED else PayoutStatus.PENDING)))
      && Enter(c, APPROVAL) == Stands(APPROVED, back, [], []).core
      && Enter(c, PAYMENT) == Stands(PAID, back, [], []).core
      && (!back ==> Enter(c, REJECTION) == Stands(REJECTED, true, [], []).core)
  {
    var c := Stands(status, back, [], []).core;
    if !back {
      assert Enter(c, REJECTION).db.wallets == map[1 := Wallet(7, 100)];
      assert Enter(c, REJECTION).db.entries == [CREDITED, HELD, RELEASED];
    }
  }

  // A rejection and an approval both read PENDING and write in that order, and the payout is paid.
  const REJECTED_THEN_PAID :=
    [Look(REJECTION, 0), Look(APPROVAL, 0), Write(0), Write(1), Look(PAYMENT, 0), Write(2)]

  lemma RejectedThenPaidSteps()
    ensures Valid(Stands(PayoutStatus.PENDING, false, [], []))
    ensures Run(Stands(PayoutStatus.PENDING, false, [], []), REJECTED_THEN_PAID)
         == Stands(PAID, true, [Decision(REJECTION, false), Decision(APPROVAL, false), Decision(PAYMENT, false)],
                   [REJECTION, APPROVAL, PAYMENT])
  {
    hide Valid, Run, Enter, Admits, WithStatus, OneWalletPerUser, FreshWalletId;
    FundedRun();
    StandingFacts(PayoutStatus.PENDING, false);
    StandingFacts(REJECTED, true);
    StandingFacts(APPROVED, true);
    var r, a, p := Decision(REJECTION, true), Decision(APPROVAL, true), Decision(PAYMENT, true);
    var r', a', p' := Decision(REJECTION, false), Decision(APPROVAL, false), Decision(PAYMENT, false);
    RunThrough([Stands(PayoutStatus.PENDING, false, [], []),
                Stands(PayoutStatus.PENDING, false, [r], []),
                Stands(PayoutStatus.PENDING, false, [r, a], []),
                Stands(REJECTED, true, [r', a], [REJECTION]),
                Stands(APPROVED, true, [r', a'], [REJECTION, APPROVAL]),
                Stands(APPROVED, true, [r', a', p], [REJECTION, APPROVAL]),
                Stands(PAID, true, [r', a', p'], [REJECTION, APPROVAL, PAYMENT])], REJECTED_THEN_PAID);
  }

  // From the beginning: the user has been paid 100 and has 100 on the wallet as well.
  lemma RejectedPayoutIsPaid()
    ensures Valid(START)
    ensures var s := Run(START, FUNDED + REJECTED_THEN_PAID);
      && s.core == WithStatus(PAID, 100, [CREDITED, HELD, RELEASED])
      && Gap(s.core) == 100 && !Inv(s.core)
  {
    hide Valid, Run, Gap, Inv, LateSum, Act;
    FundedRun();
    RunConcat(START, FUNDED, REJECTED_THEN_PAID);
    RejectedThenPaidSteps();
    OverlapsExactly(FUNDED + REJECTED_THEN_PAID);
    ThreeWrites(Run(START, FUNDED + REJECTED_THEN_PAID).core.payouts, REJECTION, APPROVAL, PAYMENT);
    assert [REJECTION, APPROVAL, PAYMENT][0].payoutId == [REJECTION, APPROVAL, PAYMENT][1].payoutId;
  }

  // Three writes on one payout: each of the first two that gives the money back makes the next one late.
  lemma ThreeWrites(payouts: seq<Payout>, a: Order, b: Order, d: Order)
    requires a.payoutId == b.payoutId == d.payoutId < |payouts|
    ensures LateSum(payouts, [a, b, d])
         == (if Frees(a) then payouts[a.payoutId].amount else 0) + (if Frees(b) then payouts[a.payoutId].amount else 0)
  {
    assert [a, b, d][..2] == [a, b] && [a, b][..1] == [a] && [a][..0] == [];
    assert Last([a], a.payoutId) == Target(a.choice);
    assert Last([a, b], a.payoutId) == Target(b.choice);
    assert LateSum(payouts, [a]) == 0;
    assert LateSum(payouts, [a, b]) == if Frees(a) then payouts[a.payoutId].amount else 0;
  }

  // The approval is written first and the payout is paid, while the rejection still waits.
  const PAID_MEANWHILE := [Look(REJECTION, 0), Look(APPROVAL, 0), Write(1), Look(PAYMENT, 0), Write(2)]

  // When it is written at last every sum is right, but a payout that was PAID ends REJECTED with its
  // money on the wallet.
  lemma PaidPayoutIsRejected()
    ensures Valid(START)
    ensures Run(START, FUNDED + PAID_MEANWHILE).core == WithStatus(PAID, 0, [CREDITED, HELD])
    ensures var s := Run(START, FUNDED + PAID_MEANWHILE + [Write(0)]);
      s.core == WithStatus(REJECTED, 100, [CREDITED, HELD, RELEASED]) && Inv(s.core)
  {
    hide Valid, Run, Gap, Inv, LateSum, Act;
    FundedRun();
    RunConcat(START, FUNDED, PAID_MEANWHILE);
    PaidMeanwhileSteps();
    RunConcat(START, FUNDED + PAID_MEANWHILE, [Write(0)]);
    OverlapsExactly(FUNDED + PAID_MEANWHILE + [Write(0)]);
    assert Clean([APPROVAL, PAYMENT, REJECTION]);
  }

  lemma PaidMeanwhileSteps()
    ensures Valid(Stands(PayoutStatus.PENDING, false, [], []))
    ensures var s := Run(Stands(PayoutStatus.PENDING, false, [], []), PAID_MEANWHILE);
      && s.core == WithStatus(PAID, 0, [CREDITED, HELD])
      && Run(s, [Write(0)]).core == WithStatus(REJECTED, 100, [CREDITED, HELD, RELEASED])
      && Run(s, [Write(0)]).written == [APPROVAL, PAYMENT, REJECTION]
  {
    hide Valid, Run, Enter, Admits, WithStatus, OneWalletPerUser, FreshWalletId;
    FundedRun();
    StandingFacts(PayoutStatus.PENDING, false);
    StandingFacts(APPROVED, false);
    StandingFacts(PAID, false);
    var r, a, p := Decision(REJECTION, true), Decision(APPROVAL, true), Decision(PAYMENT, true);
    var r', a', p' := Decision(REJECTION, false), Decision(APPROVAL, false), Decision(PAYMENT, false);
    var paid := Stands(PAID, false, [r, a', p'], [APPROVAL, PAYMENT]);
    RunThrough([Stands(PayoutStatus.PENDING, false, [], []),
                Stands(PayoutStatus.PENDING, false, [r], []),
                Stands(PayoutStatus.PENDING, false, [r, a], []),
                Stands(APPROVED, false, [r, a'], [APPROVAL]),
                Stands(APPROVED, false, [r, a', p], [APPROVAL]),
                paid], PAID_MEANWHILE);
    RunThrough([paid, Stands(REJECTED, true, [r', a', p'], [APPROVAL, PAYMENT, REJECTION])], [Write(0)]);
  }
}
