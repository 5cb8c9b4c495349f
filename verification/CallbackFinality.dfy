/** Exactly when a payment's terminal status is final, and who can still move it. */
module CallbackFinality {
  import opened Common
  import opened PaymentTypes
  import L = Ledger
  import LM = LedgerMachine
  import LR = LedgerRuns
  import opened CallbackMachine

  ghost predicate Terminated(s: State, id: nat) {
    id in s.payments && Terminal(s.payments[id].status)
  }

  // The ledger refuses to credit nothing or less.
  predicate Payable(p: Payment) {
    IsTopup(p) ==> 0 < p.amount
  }

  // The callback has passed its first read and can still end in SUCCEEDED.
  ghost predicate MaySucceed(s: State, p: Proc) {
    && p.paymentId in s.payments && Payable(s.payments[p.paymentId])
    && (match p.pc
        case Crediting(t) =>
          t < |s.ledger.txs| && (s.ledger.txs[t].pc.Finished? ==> s.ledger.txs[t].pc.outcome == LM.Committed)
        case _ => p.pc in {Verifying, LockingRow, Reconciling, OpeningWallet, Committing})
  }

  // The callback can still write a status other than the given one.
  ghost predicate Moves(s: State, p: Proc, status: PaymentStatus) {
    || (p.pc == Cancelling && status != CANCELLED)
    || (p.pc in {Verifying, Failing} && status != FAILED)
    || (MaySucceed(s, p) && status != SUCCEEDED)
  }

  ghost predicate Mover(s: State, i: nat, id: nat, status: PaymentStatus) {
    i < |s.procs| && s.procs[i].paymentId == id && Moves(s, s.procs[i], status)
  }

  ghost predicate Movable(s: State, id: nat)
    requires id in s.payments
  {
    exists i: nat :: Mover(s, i, id, s.payments[id].status)
  }

  // ------------------------------------------------------------------ nobody becomes a mover

  lemma CreditedIsPositive(s: State, id: nat)
    requires Inv(s) && id in s.payments && Credits(s, id) == 1
    ensures Payable(s.payments[id])
  {
    L.CountNone(s.ledger.db.entries, L.PaymentRef(id));
    var k :| 0 <= k < |s.ledger.db.entries| && s.ledger.db.entries[k].reference == L.PaymentRef(id);
    assert EntryOk(s, s.ledger.db.entries[k]) && s.ledger.db.entries[k] in s.ledger.db.entries;
  }

  // A write of SUCCEEDED is by a callback that may succeed.
  lemma CommittingMaySucceed(s: State, i: nat)
    requires Inv(s) && i < |s.procs| && s.procs[i].pc == Committing
    ensures MaySucceed(s, s.procs[i])
  {
    assert ProcOk(s, s.procs[i]);
    var id := s.procs[i].paymentId;
    if IsTopup(s.payments[id]) {
      CreditedIsPositive(s, id);
    }
  }

  // One step changes a terminal row only in its status, and only through a mover.
  lemma MoverStep(s: State, e: Event, id: nat)
    requires Inv(s) && Terminated(s, id)
    ensures var s' := Do(s, e);
      && Terminated(s', id) && s'.payments[id] == s.payments[id].(status := s'.payments[id].status)
      && (s'.payments[id] != s.payments[id] ==> e.Step? && Mover(s, e.i, id, s.payments[id].status))
  {
    hide LM.Progress, LM.ReadsAreCurrent, LM.PendingIsNewer, LM.LocksAreExclusive, LM.Ordered, LM.Replay, L.Sound,
         LM.Do, L.Count, ProcOk, EntryOk, CreditsOwned, RowsExclusive;
    if e.Step? && e.i < |s.procs| && s.procs[e.i].pc == Committing {
      CommittingMaySucceed(s, e.i);
    }
  }

  // A ledger event keeps every transaction where it was, and what is finished finished.
  lemma SucceedsBack(s: State, e: LM.Event, p: Proc)
    requires Inv(s) && ProcOk(s, p) && MaySucceed(s.(ledger := LM.Do(s.ledger, e)), p)
    ensures MaySucceed(s, p)
  {
    if p.pc.Crediting? {
      LedgerFrame(s.ledger, e, p.pc.tx);
    }
  }

  lemma MoverBackOther(s: State, e: Event, id: nat, i: nat, status: PaymentStatus)
    requires Inv(s) && Terminated(s, id) && Mover(Do(s, e), i, id, status)
    requires !(e.Step? && e.i == i)
    ensures Mover(s, i, id, status)
  {
    hide LM.Progress, LM.ReadsAreCurrent, LM.PendingIsNewer, LM.LocksAreExclusive, LM.Ordered, LM.Replay, L.Sound,
         L.Count, EntryOk, CreditsOwned, RowsExclusive, LM.Do, LM.Inv;
    var s' := Do(s, e);
    MoverStep(s, e, id);
    assert i < |s.procs|;
    var p := s.procs[i];
    assert s'.procs[i] == p;
    assert ProcOk(s, p);
    if MaySucceed(s', p) {
      match e
      case InLedger(le) => if ForeignEvent(le) { SucceedsBack(s, le, p); }
      case Crash(k) =>
        if k < |s.procs| && s.procs[k].pc.Crediting? {
          SucceedsBack(s, LM.Crash(s.procs[k].pc.tx), p);
        }
      case Step(k, _, w) =>
        if k < |s.procs| && s.procs[k].pc == OpeningWallet { SucceedsBackBegin(s, k, w, p); }
      case _ =>
    }
  }

  lemma SucceedsBackBegin(s: State, k: nat, freshWallet: nat, p: Proc)
    requires Inv(s) && ProcOk(s, p) && k < |s.procs| && s.procs[k].pc == OpeningWallet
    requires MaySucceed(StepProc(s, k, true, freshWallet), p)
    ensures MaySucceed(s, p)
  {
    hide LM.Progress, LM.ReadsAreCurrent, LM.PendingIsNewer, LM.LocksAreExclusive, LM.Ordered, LM.Replay, L.Sound,
         L.Count, EntryOk, CreditsOwned, RowsExclusive, LM.Do;
    assert ProcOk(s, s.procs[k]);
    if p.pc.Crediting? {
      var user := s.payments[s.procs[k].paymentId].userId;
      BeginKeepsTxs(s.ledger, freshWallet, user, p.pc.tx);
    }
  }

  lemma BeginKeepsTxs(s: LM.State, w: nat, user: nat, t: nat)
    requires LM.Inv(s) && t < |s.txs|
    ensures var grown := LM.Do(s, LM.OpenWallet(w, user));
      && LM.Inv(grown) && grown.txs == s.txs
      && forall op :: LM.Do(grown, LM.Spawn(op)).txs[t] == s.txs[t]
  {
    LM.InvDo(s, LM.OpenWallet(w, user));
  }

  // Whoever can move the row after a step could move it before: with a terminal status a new
  // callback stops at its first read.
  lemma MoverBack(s: State, e: Event, id: nat, i: nat, status: PaymentStatus)
    requires Inv(s) && Terminated(s, id) && Mover(Do(s, e), i, id, status)
    ensures Mover(s, i, id, status)
  {
    if e.Step? && e.i == i {
      MoverBackSelf(s, i, e.verified, e.freshWallet, id, status);
    } else {
      MoverBackOther(s, e, id, i, status);
    }
  }

  lemma MoverBackSelf(s: State, i: nat, verified: bool, freshWallet: nat, id: nat, status: PaymentStatus)
    requires Inv(s) && Terminated(s, id) && Mover(Do(s, Step(i, verified, freshWallet)), i, id, status)
    ensures Mover(s, i, id, status)
  {
    MoverStep(s, Step(i, verified, freshWallet), id);
    OwnStepStaysWithin(s, i, verified, freshWallet, id);
    hide Inv, LM.Inv, Do;
  }

  // What a callback of a terminal payment can still become by its own step.
  lemma OwnStepStaysWithin(s: State, i: nat, verified: bool, freshWallet: nat, id: nat)
    requires Inv(s) && Terminated(s, id) && i < |s.procs|
    ensures var s' := Do(s, Step(i, verified, freshWallet));
      && |s'.procs| == |s.procs| && s'.procs[i].paymentId == s.procs[i].paymentId
      && (s.procs[i].paymentId == id ==>
            && (s'.procs[i].pc == Cancelling ==> s.procs[i].pc == Cancelling)
            && (s'.procs[i].pc in {Verifying, Failing} ==> s.procs[i].pc in {Verifying, Failing})
            && (MaySucceed(s', s'.procs[i]) && Payable(s.payments[id]) ==> MaySucceed(s, s.procs[i])))
  {
    hide LM.Progress, LM.ReadsAreCurrent, LM.PendingIsNewer, LM.LocksAreExclusive, LM.Ordered, LM.Replay, L.Sound,
         L.Count, L.HasEntry, EntryOk, CreditsOwned, RowsExclusive, LM.Do, LM.Inv, BeginCredit, ProcOk, RowLocked;
    match s.procs[i].pc
    case OpeningWallet => BeginStays(s, i, freshWallet);
    case Crediting(t) =>
    case _ =>
  }

  lemma BeginStays(s: State, i: nat, freshWallet: nat)
    requires Inv(s) && i < |s.procs| && s.procs[i].pc == OpeningWallet
    ensures s.procs[i].paymentId in s.payments
    ensures var s' := BeginCredit(s, i, s.payments[s.procs[i].paymentId], freshWallet);
      && s'.payments == s.payments && |s'.procs| == |s.procs| && s'.procs[i].paymentId == s.procs[i].paymentId
      && (s'.procs[i].pc == OpeningWallet || s'.procs[i].pc.Crediting?)
  {
    hide LM.Progress, LM.ReadsAreCurrent, LM.PendingIsNewer, LM.LocksAreExclusive, LM.Ordered, LM.Replay, L.Count;
    assert ProcOk(s, s.procs[i]);
  }

  lemma {:induction false} MoversWereThere(s: State, events: seq<Event>, id: nat, i: nat, status: PaymentStatus)
    requires Inv(s) && Terminated(s, id) && Mover(Run(s, events), i, id, status)
    ensures Mover(s, i, id, status)
    decreases |events|
  {
    hide Do, Moves;
    if events != [] {
      InvDo(s, events[0]);
      MoverStep(s, events[0], id);
      MoversWereThere(Do(s, events[0]), events[1..], id, i, status);
      MoverBack(s, events[0], id, i, status);
    }
  }

  lemma {:induction false} StaysTerminated(s: State, events: seq<Event>, id: nat)
    requires Inv(s) && Terminated(s, id)
    ensures Terminated(Run(s, events), id)
    decreases |events|
  {
    hide Do;
    if events != [] {
      InvDo(s, events[0]);
      MoverStep(s, events[0], id);
      StaysTerminated(Do(s, events[0]), events[1..], id);
    }
  }

  // However long the run, a terminal status is overwritten only by a callback that had passed its
  // first read when the status became terminal.
  lemma OverwritesComeFromEarlierReaders(s: State, events: seq<Event>, e: Event, id: nat)
    requires Inv(s) && Terminated(s, id)
    ensures Inv(Run(s, events)) && Terminated(Run(s, events), id)
    ensures var s' := Run(s, events);
      && id in Do(s', e).payments
      && (Do(s', e).payments[id] != s'.payments[id] ==>
            && e.Step? && Mover(s, e.i, id, s'.payments[id].status)
            && s.procs[e.i].pc != Start && s.procs[e.i].pc != Ended)
  {
    hide Do;
    RunKeepsInv(s, events);
    StaysTerminated(s, events, id);
    var s' := Run(s, events);
    MoverStep(s', e, id);
    if Do(s', e).payments[id] != s'.payments[id] {
      MoversWereThere(s, events, id, e.i, s'.payments[id].status);
    }
  }

  ghost predicate Stays(s: State, events: seq<Event>, id: nat)
    requires Inv(s) && id in s.payments
  {
    id in Run(s, events).payments && Run(s, events).payments[id] == s.payments[id]
  }

  lemma {:induction false} UnmovableStays(s: State, events: seq<Event>, id: nat)
    requires Inv(s) && Terminated(s, id) && !Movable(s, id)
    ensures Stays(s, events, id)
    decreases |events|
  {
    hide Do, Mover;
    if events != [] {
      InvDo(s, events[0]);
      MoverStep(s, events[0], id);
      var s' := Do(s, events[0]);
      assert !Movable(s', id) by {
        if i: nat :| Mover(s', i, id, s'.payments[id].status) {
          MoverBack(s, events[0], id, i, s'.payments[id].status);
        }
      }
      UnmovableStays(s', events[1..], id);
    }
  }

  // ------------------------------------------------------------------ a mover can move it

  ghost predicate Leads(s: State, events: seq<Event>, s': State) {
    Inv(s) && Inv(s') && Run(s, events) == s'
  }

  lemma {:induction false} LeadsOn(s: State, a: seq<Event>, s1: State, b: seq<Event>, s2: State)
    requires Leads(s, a, s1) && Leads(s1, b, s2)
    ensures Leads(s, a + b, s2)
    decreases |a|
  {
    hide Do;
    if a == [] {
      assert a + b == b;
    } else {
      InvDo(s, a[0]);
      assert (a + b)[1..] == a[1..] + b;
      LeadsOn(Do(s, a[0]), a[1..], s1, b, s2);
    }
  }

  lemma LeadsOnce(s: State, e: Event)
    requires Inv(s)
    ensures Leads(s, [e], Do(s, e))
  {
    hide Do;
    InvDo(s, e);
    assert [e][1..] == [] && Run(Do(s, e), []) == Do(s, e);
  }

  // The row's holder, if any, crashes.
  lemma FreeRow(s: State, i: nat) returns (events: seq<Event>, s': State)
    requires Inv(s) && i < |s.procs| && !HoldsRow(s.procs[i])
    ensures Leads(s, events, s') && s'.payments == s.payments && |s'.procs| == |s.procs|
    ensures s'.procs[i] == s.procs[i] && !RowLocked(s', s.procs[i].paymentId)
  {
    hide LM.Progress, LM.ReadsAreCurrent, LM.PendingIsNewer, LM.LocksAreExclusive, LM.Ordered, LM.Replay, L.Sound,
         L.Count, ProcOk, EntryOk, CreditsOwned, RowsExclusive, LM.Do;
    var id := s.procs[i].paymentId;
    if RowLocked(s, id) {
      var k :| 0 <= k < |s.procs| && HoldsRow(s.procs[k]) && s.procs[k].paymentId == id;
      events, s' := [Crash(k)], Do(s, Crash(k));
      LeadsOnce(s, Crash(k));
      forall j | 0 <= j < |s'.procs| ensures !(HoldsRow(s'.procs[j]) && s'.procs[j].paymentId == id) {
        if j != k { HoldersDiffer(s, j, k); }
      }
    } else {
      events, s' := [], s;
    }
  }

  lemma HoldersDiffer(s: State, j: nat, k: nat)
    requires Inv(s) && j < |s.procs| && k < |s.procs| && j != k && HoldsRow(s.procs[k])
    ensures HoldsRow(s.procs[j]) ==> s.procs[j].paymentId != s.procs[k].paymentId
  {
    assert RowsExclusive(s.procs);
    if j < k {} else {}
  }

  // A callback that is cancelling or failing writes its status once the row is free.
  lemma DriveRefusal(s: State, i: nat) returns (events: seq<Event>, s': State)
    requires Inv(s) && i < |s.procs| && s.procs[i].pc in {Cancelling, Failing}
    ensures var id := s.procs[i].paymentId;
      && Leads(s, events, s') && id in s'.payments
      && s'.payments[id].status == if s.procs[i].pc == Cancelling then CANCELLED else FAILED
  {
    hide L.Count, CreditsOwned, EntryOk, RowsExclusive, LM.Progress, LM.Replay, LM.PendingIsNewer, LM.Ordered;
    assert ProcOk(s, s.procs[i]);
    var es, s1 := FreeRow(s, i);
    var e := Step(i, false, 0);
    LeadsOnce(s1, e);
    s' := Do(s1, e);
    events := es + [e];
    LeadsOn(s, es, s1, [e], s');
  }

  ghost predicate Succeeds(s: State, id: nat) {
    id in s.payments && s.payments[id].status == SUCCEEDED
  }

  lemma DriveCommitting(s: State, i: nat) returns (events: seq<Event>, s': State)
    requires Inv(s) && i < |s.procs| && s.procs[i].pc == Committing
    ensures Leads(s, events, s') && Succeeds(s', s.procs[i].paymentId)
  {
    assert ProcOk(s, s.procs[i]);
    var e := Step(i, true, 0);
    LeadsOnce(s, e);
    events, s' := [e], Do(s, e);
  }

  // A credit of a positive amount to an open wallet is never refused.
  lemma CreditStep(s: LM.State, t: nat)
    requires LM.Inv(s) && LM.Enabled(s, t) && s.txs[t].op.Credit?
    requires 0 < s.txs[t].op.amount && s.txs[t].op.walletId in s.db.wallets
    ensures var tx' := LM.StepTx(s, t).txs[t];
      && LR.StagesLeft(tx'.pc) < LR.StagesLeft(s.txs[t].pc)
      && (tx'.pc.Finished? ==> tx'.pc.outcome == LM.Committed)
  {
    hide LM.PendingIsNewer, LM.LocksAreExclusive, LM.Ordered, LM.Replay, L.Sound, LM.ReadsAreCurrent, L.Computed;
    LR.StageFalls(s, t);
  }

  // Whoever holds the wallet row crashes.
  lemma FreeWallet(s: LM.State, t: nat) returns (j: nat)
    requires LM.Inv(s) && t < |s.txs| && !s.txs[t].pc.Finished? && !LM.Enabled(s, t)
    ensures var s' := LM.Do(s, LM.Crash(j));
      && LM.Enabled(s', t) && s'.txs[t] == s.txs[t] && s'.db == s.db
  {
    hide LM.PendingIsNewer, LM.Ordered, LM.Replay, L.Sound, LM.ReadsAreCurrent;
    var w := LM.Wanted(s.txs[t]).value;
    j :| 0 <= j < |s.txs| && j != t && w in s.txs[j].rows;
    var s' := LM.Do(s, LM.Crash(j));
    forall k | 0 <= k < |s'.txs| && k != t ensures w !in s'.txs[k].rows {
      if k == j {
        assert s'.txs[k].rows == map[];
      } else {
        OneHolder(s, j, k, w);
        assert s'.txs[k] == s.txs[k];
      }
    }
  }

  lemma OneHolder(s: LM.State, j: nat, k: nat, w: nat)
    requires LM.LocksAreExclusive(s.txs) && j < |s.txs| && k < |s.txs| && j != k && w in s.txs[j].rows
    ensures w !in s.txs[k].rows
  {
    if j < k {} else {}
  }

  ghost predicate CreditRuns(s: State, i: nat) {
    && i < |s.procs| && s.procs[i].pc.Crediting? && MaySucceed(s, s.procs[i])
  }

  // The credit's transaction takes a step, after crashing whoever is in its way.
  lemma AdvanceCredit(s: State, i: nat) returns (events: seq<Event>, s': State)
    requires Inv(s) && CreditRuns(s, i) && !s.ledger.txs[s.procs[i].pc.tx].pc.Finished?
    ensures Leads(s, events, s') && s'.procs == s.procs && s'.payments == s.payments && CreditRuns(s', i)
    ensures var t := s.procs[i].pc.tx;
      LR.StagesLeft(s'.ledger.txs[t].pc) < LR.StagesLeft(s.ledger.txs[t].pc)
  {
    hide LM.Progress, LM.PendingIsNewer, LM.Ordered, LM.Replay, L.Sound, LM.ReadsAreCurrent, LM.LocksAreExclusive;
    assert ProcOk(s, s.procs[i]);
    var t := s.procs[i].pc.tx;
    var s1, es := s, [];
    if !LM.Enabled(s.ledger, t) {
      var j := FreeWallet(s.ledger, t);
      var crash := InLedger(LM.Crash(j));
      es, s1 := [crash], Do(s, crash);
      LeadsOnce(s, crash);
      assert ProcOk(s1, s1.procs[i]);
    }
    CreditStep(s1.ledger, t);
    var e := InLedger(LM.Step(t));
    LeadsOnce(s1, e);
    s' := Do(s1, e);
    events := es + [e];
    LeadsOn(s, es, s1, [e], s');
  }

  lemma {:induction false} DriveCrediting(s: State, i: nat) returns (events: seq<Event>, s': State)
    requires Inv(s) && CreditRuns(s, i)
    ensures Leads(s, events, s') && Succeeds(s', s.procs[i].paymentId)
    decreases LR.StagesLeft(s.ledger.txs[s.procs[i].pc.tx].pc)
  {
    hide Inv, LM.Inv;
    if s.ledger.txs[s.procs[i].pc.tx].pc.Finished? {
      events, s' := DriveCredited(s, i);
    } else {
      var a, s1 := AdvanceCredit(s, i);
      var b, s2 := DriveCrediting(s1, i);
      events, s' := a + b, s2;
      LeadsOn(s, a, s1, b, s2);
    }
  }

  lemma DriveCredited(s: State, i: nat) returns (events: seq<Event>, s': State)
    requires Inv(s) && CreditRuns(s, i) && s.ledger.txs[s.procs[i].pc.tx].pc.Finished?
    ensures Leads(s, events, s') && Succeeds(s', s.procs[i].paymentId)
  {
    var e := Step(i, true, 0);
    LeadsOnce(s, e);
    var s1 := Do(s, e);
    var b, s2 := DriveCommitting(s1, i);
    events, s' := [e] + b, s2;
    LeadsOn(s, [e], s1, b, s2);
  }

  lemma UnusedId(wallets: map<nat, L.Wallet>) returns (w: nat)
    ensures w !in wallets
  {
    var ids := wallets.Keys;
    w := Above(ids);
    assert forall x :: x in wallets ==> x in ids && x < w;
  }

  lemma Above(ids: set<nat>) returns (w: nat)
    ensures forall x :: x in ids ==> x < w
  {
    if ids == {} {
      w := 0;
    } else {
      var x :| x in ids;
      var v := Above(ids - {x});
      w := if v <= x then x + 1 else v;
      assert forall y :: y in ids ==> y == x || y in ids - {x};
    }
  }

  // The user's wallet is found or opened, and the credit's transaction starts.
  lemma OpeningBegins(s: State, i: nat) returns (w: nat)
    requires Inv(s) && i < |s.procs| && s.procs[i].pc == OpeningWallet && MaySucceed(s, s.procs[i])
    ensures var s' := Do(s, Step(i, true, w)); CreditRuns(s', i) && s'.procs[i].paymentId == s.procs[i].paymentId
  {
    hide LM.Progress, LM.PendingIsNewer, LM.Ordered, LM.Replay, LM.ReadsAreCurrent, LM.LocksAreExclusive, L.Count;
    assert ProcOk(s, s.procs[i]);
    w := UnusedId(s.ledger.db.wallets);
    var user := s.payments[s.procs[i].paymentId].userId;
    LM.InvDo(s.ledger, LM.OpenWallet(w, user));
    var grown := LM.Do(s.ledger, LM.OpenWallet(w, user));
    assert exists v :: v in grown.db.wallets && grown.db.wallets[v].userId == user by {
      assert w in grown.db.wallets
          || exists v :: v in s.ledger.db.wallets && s.ledger.db.wallets[v].userId == user;
    }
    assert L.OwnedBy(grown.db.wallets, user).Some?;
  }

  lemma DriveOpening(s: State, i: nat) returns (events: seq<Event>, s': State)
    requires Inv(s) && i < |s.procs| && s.procs[i].pc == OpeningWallet && MaySucceed(s, s.procs[i])
    ensures Leads(s, events, s') && Succeeds(s', s.procs[i].paymentId)
  {
    hide Do;
    var w := OpeningBegins(s, i);
    var e := Step(i, true, w);
    LeadsOnce(s, e);
    var s1 := Do(s, e);
    var b, s2 := DriveCrediting(s1, i);
    events, s' := [e] + b, s2;
    LeadsOn(s, [e], s1, b, s2);
  }

  lemma DriveReconciling(s: State, i: nat) returns (events: seq<Event>, s': State)
    requires Inv(s) && i < |s.procs| && s.procs[i].pc == Reconciling && MaySucceed(s, s.procs[i])
    ensures Leads(s, events, s') && Succeeds(s', s.procs[i].paymentId)
  {
    var e := Step(i, true, 0);
    LeadsOnce(s, e);
    var s1 := Do(s, e);
    var b, s2;
    if s1.procs[i].pc == Committing {
      b, s2 := DriveCommitting(s1, i);
    } else {
      b, s2 := DriveOpening(s1, i);
    }
    events, s' := [e] + b, s2;
    LeadsOn(s, [e], s1, b, s2);
  }

  lemma DriveLocking(s: State, i: nat) returns (events: seq<Event>, s': State)
    requires Inv(s) && i < |s.procs| && s.procs[i].pc == LockingRow && MaySucceed(s, s.procs[i])
    ensures Leads(s, events, s') && Succeeds(s', s.procs[i].paymentId)
  {
    var es, s0 := FreeRow(s, i);
    var e := Step(i, true, 0);
    LeadsOnce(s0, e);
    var s1 := Do(s0, e);
    var b, s2 := DriveReconciling(s1, i);
    LeadsOn(s0, [e], s1, b, s2);
    LeadsOn(s, es, s0, [e] + b, s2);
    events, s' := es + ([e] + b), s2;
  }

  lemma DriveSuccess(s: State, i: nat) returns (events: seq<Event>, s': State)
    requires Inv(s) && i < |s.procs| && MaySucceed(s, s.procs[i])
    ensures Leads(s, events, s') && Succeeds(s', s.procs[i].paymentId)
  {
    match s.procs[i].pc
    case Committing => events, s' := DriveCommitting(s, i);
    case Crediting(_) => events, s' := DriveCrediting(s, i);
    case OpeningWallet => events, s' := DriveOpening(s, i);
    case Reconciling => events, s' := DriveReconciling(s, i);
    case LockingRow => events, s' := DriveLocking(s, i);
    case Verifying =>
      var e := Step(i, true, 0);
      LeadsOnce(s, e);
      var b, s2 := DriveLocking(Do(s, e), i);
      events, s' := [e] + b, s2;
      LeadsOn(s, [e], Do(s, e), b, s2);
  }

  lemma DriveFailure(s: State, i: nat) returns (events: seq<Event>, s': State)
    requires Inv(s) && i < |s.procs| && s.procs[i].pc in {Verifying, Failing}
    ensures var id := s.procs[i].paymentId; Leads(s, events, s') && id in s'.payments && s'.payments[id].status == FAILED
  {
    if s.procs[i].pc == Failing {
      events, s' := DriveRefusal(s, i);
    } else {
      var e := Step(i, false, 0);
      LeadsOnce(s, e);
      var b, s2 := DriveRefusal(Do(s, e), i);
      events, s' := [e] + b, s2;
      LeadsOn(s, [e], Do(s, e), b, s2);
    }
  }

  lemma MoverDrives(s: State, i: nat, id: nat) returns (events: seq<Event>)
    requires Inv(s) && Terminated(s, id) && Mover(s, i, id, s.payments[id].status)
    ensures !Stays(s, events, id)
  {
    hide Inv, Run;
    var p, status, s' := s.procs[i], s.payments[id].status, s;
    if p.pc == Cancelling && status != CANCELLED {
      events, s' := DriveRefusal(s, i);
    } else if p.pc in {Verifying, Failing} && status != FAILED {
      events, s' := DriveFailure(s, i);
    } else {
      events, s' := DriveSuccess(s, i);
    }
  }

  // A terminal row never changes again, whatever happens, exactly when no callback that has passed
  // its first read can still write another status.
  lemma FinalExactly(s: State, id: nat)
    requires Inv(s) && Terminated(s, id)
    ensures (forall events :: Stays(s, events, id)) <==> !Movable(s, id)
  {
    hide Inv, Stays, Mover;
    if i: nat :| Mover(s, i, id, s.payments[id].status) {
      var events := MoverDrives(s, i, id);
    } else {
      forall events ensures Stays(s, events, id) {
        UnmovableStays(s, events, id);
      }
    }
  }

  // For a succeeded payment: exactly when none of its callbacks is cancelling, verifying or failing.
  lemma SucceededIsFinalExactly(s: State, id: nat)
    requires Inv(s) && Terminated(s, id) && s.payments[id].status == SUCCEEDED
    ensures (forall events :: Stays(s, events, id))
       <==> forall i :: 0 <= i < |s.procs| && s.procs[i].paymentId == id ==>
              s.procs[i].pc !in {Cancelling, Verifying, Failing}
  {
    hide Inv, Stays, MaySucceed;
    FinalExactly(s, id);
    if i :| 0 <= i < |s.procs| && s.procs[i].paymentId == id && s.procs[i].pc in {Cancelling, Verifying, Failing} {
      assert Mover(s, i, id, SUCCEEDED);
    }
  }

  // ------------------------------------------------------------------ while the row is held

  // While one callback holds a payment's row, nothing but its own commit changes the status.
  lemma HeldRowStays(s: State, e: Event, j: nat)
    requires Inv(s) && j < |s.procs| && HoldsRow(s.procs[j]) && s.procs[j].paymentId in s.payments
    requires !(e.Step? && e.i == j && s.procs[j].pc == Committing)
    ensures var id := s.procs[j].paymentId;
      id in Do(s, e).payments && Do(s, e).payments[id].status == s.payments[id].status
  {
    hide LM.Progress, LM.ReadsAreCurrent, LM.PendingIsNewer, LM.LocksAreExclusive, LM.Ordered, LM.Replay, L.Sound,
         L.Count, CreditsOwned, EntryOk, ProcOk;
    assert RowLocked(s, s.procs[j].paymentId);
    if e.Step? && e.i < |s.procs| && e.i != j && s.procs[e.i].pc == Committing {
      assert s.procs[e.i].paymentId != s.procs[j].paymentId;
    }
  }
}
