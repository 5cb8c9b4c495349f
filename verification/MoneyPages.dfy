/** The cursor pages of a user's payments and payouts, walked while handlers go on adding rows. */
module MoneyPages {
  import opened Common
  import L = Ledger
  import P = Pages
  import opened PaymentTypes
  import opened Money
  import opened MoneyRuns

  ghost function PaymentIds(c: Core, userId: nat): set<nat> {
    set i: nat | i < |c.payments| && c.payments[i].userId == userId
  }

  ghost function PayoutIds(c: Core, userId: nat): set<nat> {
    set i: nat | i < |c.payouts| && c.payouts[i].userId == userId
  }

  // Rows are only added, and keep their owners.
  ghost predicate Grown(c: Core, c': Core) {
    && |c.payments| <= |c'.payments| && |c.payouts| <= |c'.payouts|
    && (forall i :: 0 <= i < |c.payments| ==> c'.payments[i].userId == c.payments[i].userId)
    && (forall i :: 0 <= i < |c.payouts| ==> c'.payouts[i].userId == c.payouts[i].userId)
  }

  lemma StepGrows(c: Core, e: Event)
    requires Inv(c)
    ensures Grown(c, Do(c, e))
  {
    hide L.Sound, L.FreshWalletId, Conserved, PayoutOk, PaymentOk, RefundOk, EntryOk;
  }

  lemma {:induction false} RunGrows(c: Core, events: seq<Event>)
    requires Inv(c)
    ensures Grown(c, Run(c, events))
    decreases |events|
  {
    hide Do;
    if events != [] {
      InvDo(c, events[0]);
      StepGrows(c, events[0]);
      RunGrows(Do(c, events[0]), events[1..]);
    }
  }

  ghost function After(c: Core, events: seq<Event>): Core {
    if Inv(c) then Run(c, events) else c
  }

  // A walk over a user's payments shows exactly those of its first page's moment, newest first.
  lemma PaymentsWalk(c: Core, between: nat -> seq<Event>, userId: nat, limit: nat)
    requires Inv(c) && between(0) == [] && 0 < limit
    ensures var table := k => PaymentIds(After(c, between(k)), userId);
      P.OnlyNewer(table) && P.Walk(table, 0, None, limit) == P.Descending(PaymentIds(c, userId))
  {
    hide Inv;
    var table := k => PaymentIds(After(c, between(k)), userId);
    forall k: nat
      ensures table(0) <= table(k)
      ensures forall a, b :: a in table(0) && b in table(k) - table(0) ==> a < b
    {
      RunGrows(c, between(k));
      assert After(c, between(0)) == c;
    }
    P.NewerRowsDoNotShow(table, limit);
  }

  // The same for payouts.
  lemma PayoutsWalk(c: Core, between: nat -> seq<Event>, userId: nat, limit: nat)
    requires Inv(c) && between(0) == [] && 0 < limit
    ensures var table := k => PayoutIds(After(c, between(k)), userId);
      P.OnlyNewer(table) && P.Walk(table, 0, None, limit) == P.Descending(PayoutIds(c, userId))
  {
    hide Inv;
    var table := k => PayoutIds(After(c, between(k)), userId);
    forall k: nat
      ensures table(0) <= table(k)
      ensures forall a, b :: a in table(0) && b in table(k) - table(0) ==> a < b
    {
      RunGrows(c, between(k));
      assert After(c, between(0)) == c;
    }
    P.NewerRowsDoNotShow(table, limit);
  }
}
