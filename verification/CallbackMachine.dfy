/** Gateway callbacks as interleaved steps over the ledger's own interleaved transactions.

    The payment row's lock is taken by the status update and held to the end of the outer
    transaction. The credit inside it is a ledger transaction of its own, which may commit although
    the outer one is rolled back by a crash. */
module CallbackMachine {
  import opened Common
  import opened PaymentTypes
  import L = Ledger
  import LM = LedgerMachine

  datatype Pc =
    | Start | Cancelling | Verifying | Failing
    | LockingRow | Reconciling | OpeningWallet | Crediting(tx: nat) | Committing
    | Ended

  datatype Proc = Proc(paymentId: nat, providerReference: string, ok: bool, pc: Pc)

  datatype State = State(ledger: LM.State, payments: map<nat, Payment>, procs: seq<Proc>)

  datatype Event =
    | NewPayment(id: nat, userId: nat, amount: int, purpose: string)
    | SetProviderReference(id: nat, reference: string)
    | InitiationFailed(id: nat)
    | Arrive(paymentId: nat, providerReference: string, ok: bool)
    | Step(i: nat, verified: bool, freshWallet: nat)
    | Crash(i: nat)
    | InLedger(e: LM.Event)

  const INITIAL := State(LM.INITIAL, map[], [])

  // The status is written, uncommitted, and the row lock is held.
  predicate HoldsRow(p: Proc) {
    p.pc.Reconciling? || p.pc.OpeningWallet? || p.pc.Crediting? || p.pc.Committing?
  }

  predicate RowLocked(s: State, paymentId: nat) {
    exists j :: 0 <= j < |s.procs| && HoldsRow(s.procs[j]) && s.procs[j].paymentId == paymentId
  }

  function SetStatus(payments: map<nat, Payment>, id: nat, status: PaymentStatus): map<nat, Payment> {
    if id in payments then payments[id := payments[id].(status := status)] else payments
  }

  // One callback step. A step that must wait for a lock leaves the state as it is.
  function StepProc(s: State, i: nat, verified: bool, freshWallet: nat): State
    requires LM.Inv(s.ledger) && i < |s.procs|
  {
    var p := s.procs[i];
    var id := p.paymentId;
    match p.pc
    case Start =>
      Goto(s, i,
           if id !in s.payments || Terminal(s.payments[id].status) then Ended
           else if s.payments[id].providerReference != Some(p.providerReference) then Ended
           else if !p.ok then Cancelling else Verifying)
    case Cancelling =>
      if RowLocked(s, id) then s else Goto(s, i, Ended).(payments := SetStatus(s.payments, id, CANCELLED))
    case Verifying => Goto(s, i, if verified then LockingRow else Failing)
    case Failing =>
      if RowLocked(s, id) then s else Goto(s, i, Ended).(payments := SetStatus(s.payments, id, FAILED))
    case LockingRow => if RowLocked(s, id) then s else Goto(s, i, Reconciling)
    case Reconciling =>
      Goto(s, i,
           if L.HasEntry(s.ledger.db.entries, L.PaymentRef(id)) then Committing
           else if id in s.payments && IsTopup(s.payments[id]) then OpeningWallet
           else Committing)
    case OpeningWallet => if id in s.payments then BeginCredit(s, i, s.payments[id], freshWallet) else s
    case Crediting(t) =>
      if t < |s.ledger.txs| && s.ledger.txs[t].pc.Finished? then
        Goto(s, i, if s.ledger.txs[t].pc.outcome == LM.Committed then Committing else Ended)
      else s
    case Committing => Goto(s, i, Ended).(payments := SetStatus(s.payments, id, SUCCEEDED))
    case Ended => s
  }

  function Goto(s: State, i: nat, pc: Pc): State
    requires i < |s.procs|
  {
    s.(procs := s.procs[i := s.procs[i].(pc := pc)])
  }

  // findOrCreateForUser, then the call that opens the credit's transaction.
  function BeginCredit(s: State, i: nat, payment: Payment, freshWallet: nat): State
    requires LM.Inv(s.ledger) && i < |s.procs|
  {
    LM.InvDo(s.ledger, LM.OpenWallet(freshWallet, payment.userId));
    var grown := LM.Do(s.ledger, LM.OpenWallet(freshWallet, payment.userId));
    var wallet := L.OwnedBy(grown.db.wallets, payment.userId);
    if wallet.None? then s else
      var op := L.Credit(wallet.value, payment.amount, L.PaymentRef(s.procs[i].paymentId));
      Goto(s, i, Crediting(|grown.txs|)).(ledger := LM.Do(grown, LM.Spawn(op)))
  }

  // Nobody but the reconciler writes a payment's reference.
  predicate ForeignEvent(e: LM.Event) {
    e.Spawn? ==> !e.op.reference.PaymentRef?
  }

  function Do(s: State, e: Event): State
    requires LM.Inv(s.ledger)
  {
    match e
    case NewPayment(id, user, amount, purpose) =>
      if id in s.payments then s
      else s.(payments := s.payments[id := Payment(user, amount, purpose, PENDING, None)])
    case SetProviderReference(id, reference) =>
      if id in s.payments && s.payments[id].providerReference == None && s.payments[id].status == PENDING then
        s.(payments := s.payments[id := s.payments[id].(providerReference := Some(reference))])
      else s
    case InitiationFailed(id) =>
      if id in s.payments && s.payments[id].providerReference == None && s.payments[id].status == PENDING
         && !RowLocked(s, id) then
        s.(payments := SetStatus(s.payments, id, FAILED))
      else s
    case Arrive(id, reference, ok) => s.(procs := s.procs + [Proc(id, reference, ok, Start)])
    case Step(i, verified, walletId) => if i < |s.procs| then StepProc(s, i, verified, walletId) else s
    case Crash(i) =>
      if i < |s.procs| then
        var p := s.procs[i];
        Goto(s, i, Ended).(ledger := if p.pc.Crediting? then LM.Do(s.ledger, LM.Crash(p.pc.tx)) else s.ledger)
      else s
    case InLedger(le) => if ForeignEvent(le) then s.(ledger := LM.Do(s.ledger, le)) else s
  }

  // ------------------------------------------------------------------ the invariant

  function Credits(s: State, id: nat): nat {
    L.Count(s.ledger.db.entries, L.PaymentRef(id))
  }

  ghost predicate ProcOk(s: State, p: Proc) {
    var id := p.paymentId;
    && (p.pc != Start && p.pc != Ended ==> id in s.payments)
    && (match p.pc
        case OpeningWallet => IsTopup(s.payments[id]) && Credits(s, id) == 0
        case Crediting(t) =>
          && IsTopup(s.payments[id]) && t < |s.ledger.txs|
          && CreditsPayment(s, s.ledger.txs[t].op, id)
          && Credits(s, id) == (if s.ledger.txs[t].pc == LM.Finished(LM.Committed) then 1 else 0)
        case Committing => IsTopup(s.payments[id]) ==> Credits(s, id) == 1
        case _ => true)
  }

  ghost predicate CreditsPayment(s: State, op: L.Op, id: nat)
    requires id in s.payments
  {
    && op.Credit? && op.amount == s.payments[id].amount && op.reference == L.PaymentRef(id)
    && op.walletId in s.ledger.db.wallets
    && s.ledger.db.wallets[op.walletId].userId == s.payments[id].userId
  }

  ghost predicate RowsExclusive(procs: seq<Proc>) {
    forall i, j :: 0 <= i < j < |procs| && HoldsRow(procs[i]) && HoldsRow(procs[j]) ==>
      procs[i].paymentId != procs[j].paymentId
  }

  ghost predicate Owned(procs: seq<Proc>, t: nat) {
    exists i :: 0 <= i < |procs| && procs[i].pc == Crediting(t)
  }

  ghost predicate CreditsOwned(s: State) {
    forall t :: 0 <= t < |s.ledger.txs| && s.ledger.txs[t].op.reference.PaymentRef?
                && !s.ledger.txs[t].pc.Finished? ==>
      Owned(s.procs, t)
  }

  // A ledger entry that carries a payment's reference is that payment's credit.
  ghost predicate EntryOk(s: State, e: L.Entry) {
    e.reference.PaymentRef? ==>
      var id := e.reference.id;
      && id in s.payments && IsTopup(s.payments[id])
      && e.kind == L.CREDIT && e.amount == s.payments[id].amount && e.userId == s.payments[id].userId
  }

  ghost predicate Inv(s: State) {
    && LM.Inv(s.ledger)
    && RowsExclusive(s.procs)
    && (forall i :: 0 <= i < |s.procs| ==> ProcOk(s, s.procs[i]))
    && CreditsOwned(s)
    && (forall k :: 0 <= k < |s.ledger.db.entries| ==> EntryOk(s, s.ledger.db.entries[k]))
    && (forall id :: Credits(s, id) <= 1)
    && (forall id :: id in s.payments && s.payments[id].status == SUCCEEDED && IsTopup(s.payments[id]) ==>
          Credits(s, id) == 1)
  }

  // ------------------------------------------------------------------ facts about ledger steps

  // What a ledger event can do to the transaction at t, and to the entries.
  lemma LedgerFrame(s: LM.State, e: LM.Event, t: nat)
    requires LM.Inv(s) && t < |s.txs|
    ensures var s' := LM.Do(s, e);
      && t < |s'.txs| && s'.txs[t].op == s.txs[t].op
      && (s.txs[t].pc.Finished? ==> s'.txs[t] == s.txs[t])
      && (!s.txs[t].pc.Finished? && s'.txs[t].pc == LM.Finished(LM.Committed) ==>
            e == LM.Step(t) && s.txs[t].pc == LM.Commit)
      && (e == LM.Step(t) && s.txs[t].pc == LM.Commit ==> s'.txs[t].pc == LM.Finished(LM.Committed))
  {
    hide LM.Progress, LM.ReadsAreCurrent, LM.PendingIsNewer, LM.LocksAreExclusive, LM.Ordered, LM.Replay, L.Sound;
  }

  lemma WalletsStay(s: LM.State, e: LM.Event, w: nat)
    requires LM.Inv(s) && w in s.db.wallets
    ensures w in LM.Do(s, e).db.wallets && LM.Do(s, e).db.wallets[w].userId == s.db.wallets[w].userId
  {}

  ghost predicate Commits(s: LM.State, e: LM.Event)
  {
    e.Step? && e.i < |s.txs| && s.txs[e.i].pc == LM.Commit
  }

  lemma EntriesFrame(s: LM.State, e: LM.Event)
    requires LM.Inv(s)
    ensures LM.Do(s, e).db.entries == if Commits(s, e) then s.db.entries + s.txs[e.i].appended else s.db.entries
  {}

  lemma AppendedCounts(db: L.Db, tx: LM.Tx, r: L.Reference)
    requires LM.Progress(db, tx) && tx.pc == LM.Commit
    ensures r != tx.op.reference ==> L.Count(tx.appended, r) == 0
    ensures r == tx.op.reference && tx.op.Credit? ==> L.Count(tx.appended, r) == 1
  {
    if r != tx.op.reference {
      L.CountNone(tx.appended, r);
    } else if tx.op.Credit? {
      assert tx.appended == [] + [tx.appended[0]];
      L.CountPush([], tx.appended[0], r);
    }
  }

  // A commit adds one entry per write, all with the operation's reference.
  lemma CommitCounts(s: LM.State, i: nat, r: L.Reference)
    requires LM.Inv(s) && i < |s.txs| && s.txs[i].pc == LM.Commit
    ensures var before, after := L.Count(s.db.entries, r), L.Count(LM.Do(s, LM.Step(i)).db.entries, r);
      && (r != s.txs[i].op.reference ==> after == before)
      && (r == s.txs[i].op.reference && s.txs[i].op.Credit? ==> after == before + 1)
  {
    var appended := s.txs[i].appended;
    assert LM.Do(s, LM.Step(i)).db.entries == s.db.entries + appended by {
      EntriesFrame(s, LM.Step(i));
    }
    AppendedCounts(s.db, s.txs[i], r);
    L.CountConcat(s.db.entries, appended, r);
  }

  // ------------------------------------------------------------------ every event keeps the invariant

  // A ledger event by anyone: the credits of a payment change only when its own credit commits.
  lemma CreditsAfterLedger(s: State, e: LM.Event, id: nat)
    requires Inv(s)
    ensures var s' := s.(ledger := LM.Do(s.ledger, e));
      if Commits(s.ledger, e) && s.ledger.txs[e.i].op.reference == L.PaymentRef(id) then
        Credits(s, id) == 0 && Credits(s', id) == 1
      else Credits(s', id) == Credits(s, id)
  {
    EntriesFrame(s.ledger, e);
    if Commits(s.ledger, e) {
      var op := s.ledger.txs[e.i].op;
      if op.reference == L.PaymentRef(id) {
        assert Owned(s.procs, e.i);
        var j :| 0 <= j < |s.procs| && s.procs[j].pc == Crediting(e.i);
        assert ProcOk(s, s.procs[j]);
      }
      CommitCounts(s.ledger, e.i, L.PaymentRef(id));
    }
  }

  lemma ProcAfterLedger(s: State, e: LM.Event, i: nat)
    requires Inv(s) && i < |s.procs|
    ensures ProcOk(s.(ledger := LM.Do(s.ledger, e)), s.procs[i])
  {
    var p := s.procs[i];
    CreditsAfterLedger(s, e, p.paymentId);
    assert ProcOk(s, p);
    if p.pc.Crediting? {
      var t := p.pc.tx;
      LedgerFrame(s.ledger, e, t);
      WalletsStay(s.ledger, e, s.ledger.txs[t].op.walletId);
    }
    if Commits(s.ledger, e) && s.ledger.txs[e.i].op.reference == L.PaymentRef(p.paymentId) {
      assert Owned(s.procs, e.i);
      var j :| 0 <= j < |s.procs| && s.procs[j].pc == Crediting(e.i);
      assert ProcOk(s, s.procs[j]);
      assert HoldsRow(p) ==> i == j;
    }
  }

  lemma EntriesAfterLedger(s: State, e: LM.Event, k: nat)
    requires Inv(s) && k < |LM.Do(s.ledger, e).db.entries|
    ensures EntryOk(s.(ledger := LM.Do(s.ledger, e)), LM.Do(s.ledger, e).db.entries[k])
  {
    hide LM.PendingIsNewer, L.Sound, LM.Replay, LM.LocksAreExclusive, LM.Ordered, RowsExclusive;
    EntriesFrame(s.ledger, e);
    var es, es' := s.ledger.db.entries, LM.Do(s.ledger, e).db.entries;
    if k < |es| {
      assert EntryOk(s, es[k]);
    } else {
      var tx := s.ledger.txs[e.i];
      assert es'[k] == tx.appended[k - |es|];
      if es'[k].reference.PaymentRef? {
        assert tx.op.reference.PaymentRef?;
        assert Owned(s.procs, e.i);
        var j :| 0 <= j < |s.procs| && s.procs[j].pc == Crediting(e.i);
        assert ProcOk(s, s.procs[j]);
      }
    }
  }

  lemma CreditsStayOwned(s: State, e: LM.Event)
    requires Inv(s) && (e.Spawn? ==> !e.op.reference.PaymentRef?)
    ensures CreditsOwned(s.(ledger := LM.Do(s.ledger, e)))
  {
    var ls' := LM.Do(s.ledger, e);
    forall t | 0 <= t < |ls'.txs| && ls'.txs[t].op.reference.PaymentRef? && !ls'.txs[t].pc.Finished?
      ensures Owned(s.procs, t)
    {
      if t < |s.ledger.txs| {
        LedgerFrame(s.ledger, e, t);
      }
    }
  }

  lemma InvInLedger(s: State, e: LM.Event)
    requires Inv(s) && ForeignEvent(e)
    ensures Inv(s.(ledger := LM.Do(s.ledger, e)))
  {
    var s' := s.(ledger := LM.Do(s.ledger, e));
    LM.InvDo(s.ledger, e);
    forall i | 0 <= i < |s'.procs| ensures ProcOk(s', s'.procs[i]) {
      ProcAfterLedger(s, e, i);
    }
    forall k | 0 <= k < |s'.ledger.db.entries| ensures EntryOk(s', s'.ledger.db.entries[k]) {
      EntriesAfterLedger(s, e, k);
    }
    CreditsStayOwned(s, e);
    forall id: nat ensures Credits(s', id) <= 1 && Credits(s, id) <= Credits(s', id) {
      CreditsAfterLedger(s, e, id);
    }
  }

  // Moving one callback on, when the row lock it takes is free and no running credit is forgotten.
  lemma InvGoto(s: State, i: nat, pc: Pc)
    requires Inv(s) && i < |s.procs|
    requires ProcOk(s, s.procs[i].(pc := pc))
    requires HoldsRow(s.procs[i].(pc := pc)) ==> HoldsRow(s.procs[i]) || !RowLocked(s, s.procs[i].paymentId)
    requires s.procs[i].pc.Crediting? ==>
      s.procs[i].pc.tx < |s.ledger.txs| && s.ledger.txs[s.procs[i].pc.tx].pc.Finished?
    ensures Inv(Goto(s, i, pc))
  {
    hide LM.Progress, LM.ReadsAreCurrent, LM.PendingIsNewer, LM.LocksAreExclusive, LM.Ordered, LM.Replay, L.Sound;
    var s' := Goto(s, i, pc);
    forall j | 0 <= j < |s'.procs| ensures ProcOk(s', s'.procs[j]) {
      if j != i {
        assert ProcOk(s, s.procs[j]);
      }
    }
    forall t | 0 <= t < |s.ledger.txs| && s.ledger.txs[t].op.reference.PaymentRef? && !s.ledger.txs[t].pc.Finished?
      ensures Owned(s'.procs, t)
    {
      assert Owned(s.procs, t);
      var j :| 0 <= j < |s.procs| && s.procs[j].pc == Crediting(t);
      assert s'.procs[j] == s.procs[j];
    }
    forall id: nat ensures Credits(s', id) == Credits(s, id) {}
    forall k | 0 <= k < |s'.ledger.db.entries| ensures EntryOk(s', s'.ledger.db.entries[k]) {
      assert EntryOk(s, s.ledger.db.entries[k]);
    }
  }

  lemma InvStatus(s: State, id: nat, status: PaymentStatus)
    requires Inv(s)
    requires id in s.payments && status == SUCCEEDED && IsTopup(s.payments[id]) ==> Credits(s, id) == 1
    ensures Inv(s.(payments := SetStatus(s.payments, id, status)))
  {
    var s' := s.(payments := SetStatus(s.payments, id, status));
    forall j | 0 <= j < |s'.procs| ensures ProcOk(s', s'.procs[j]) {
      assert ProcOk(s, s.procs[j]);
    }
    forall k | 0 <= k < |s'.ledger.db.entries| ensures EntryOk(s', s'.ledger.db.entries[k]) {
      assert EntryOk(s, s.ledger.db.entries[k]);
    }
    forall other: nat ensures Credits(s', other) == Credits(s, other) {}
  }

  // The credit's transaction starts; its callback owns it until it finishes.
  lemma InvBeginCredit(s: State, i: nat, walletId: nat)
    requires Inv(s) && i < |s.procs| && s.procs[i].pc == OpeningWallet
    ensures Inv(BeginCredit(s, i, s.payments[s.procs[i].paymentId], walletId))
  {
    assert ProcOk(s, s.procs[i]);
    var id := s.procs[i].paymentId;
    var payment := s.payments[id];
    var open := LM.OpenWallet(walletId, payment.userId);
    InvInLedger(s, open);
    LM.InvDo(s.ledger, open);
    var s1 := s.(ledger := LM.Do(s.ledger, open));
    assert s1.ledger.db.entries == s.ledger.db.entries;
    var wallet := L.OwnedBy(s1.ledger.db.wallets, payment.userId);
    if wallet.Some? {
      var op := L.Credit(wallet.value, payment.amount, L.PaymentRef(id));
      InvSpawnCredit(s1, i, op);
    }
  }

  lemma InvSpawnCredit(s: State, i: nat, op: L.Op)
    requires Inv(s) && i < |s.procs| && s.procs[i].pc == OpeningWallet
    requires s.procs[i].paymentId in s.payments && CreditsPayment(s, op, s.procs[i].paymentId)
    ensures Inv(Goto(s, i, Crediting(|s.ledger.txs|)).(ledger := LM.Do(s.ledger, LM.Spawn(op))))
  {
    hide LM.Progress, LM.ReadsAreCurrent, LM.PendingIsNewer, LM.LocksAreExclusive, LM.Ordered, LM.Replay, L.Sound;
    assert ProcOk(s, s.procs[i]);
    var t := |s.ledger.txs|;
    LM.InvDo(s.ledger, LM.Spawn(op));
    var s' := Goto(s, i, Crediting(t)).(ledger := LM.Do(s.ledger, LM.Spawn(op)));
    forall j | 0 <= j < |s'.procs| ensures ProcOk(s', s'.procs[j]) {
      assert ProcOk(s, s.procs[j]);
    }
    forall u | 0 <= u < |s'.ledger.txs| && s'.ledger.txs[u].op.reference.PaymentRef?
               && !s'.ledger.txs[u].pc.Finished?
      ensures Owned(s'.procs, u)
    {
      if u == t {
        assert s'.procs[i].pc == Crediting(t);
      } else {
        assert s'.ledger.txs[u] == s.ledger.txs[u];
        assert Owned(s.procs, u);
        var j :| 0 <= j < |s.procs| && s.procs[j].pc == Crediting(u);
        assert s'.procs[j] == s.procs[j];
      }
    }
    forall id: nat ensures Credits(s', id) == Credits(s, id) {}
    forall k | 0 <= k < |s'.ledger.db.entries| ensures EntryOk(s', s'.ledger.db.entries[k]) {
      assert EntryOk(s, s.ledger.db.entries[k]);
    }
  }

  lemma InvStep(s: State, i: nat, verified: bool, walletId: nat)
    requires Inv(s) && i < |s.procs|
    ensures Inv(StepProc(s, i, verified, walletId))
  {
    hide LM.Progress, LM.ReadsAreCurrent, LM.PendingIsNewer, LM.LocksAreExclusive, LM.Ordered, LM.Replay, L.Sound;
    var p := s.procs[i];
    var id := p.paymentId;
    assert ProcOk(s, p);
    var s' := StepProc(s, i, verified, walletId);
    match p.pc
    case Start => InvGoto(s, i, s'.procs[i].pc);
    case Cancelling => if !RowLocked(s, id) { InvGoto(s, i, Ended); InvStatus(Goto(s, i, Ended), id, CANCELLED); }
    case Verifying => InvGoto(s, i, s'.procs[i].pc);
    case Failing => if !RowLocked(s, id) { InvGoto(s, i, Ended); InvStatus(Goto(s, i, Ended), id, FAILED); }
    case LockingRow => if !RowLocked(s, id) { InvGoto(s, i, Reconciling); }
    case Reconciling =>
      L.CountNone(s.ledger.db.entries, L.PaymentRef(id));
      InvGoto(s, i, s'.procs[i].pc);
    case OpeningWallet => InvBeginCredit(s, i, walletId);
    case Crediting(t) => if s.ledger.txs[t].pc.Finished? { InvGoto(s, i, s'.procs[i].pc); }
    case Committing => InvGoto(s, i, Ended); InvStatus(Goto(s, i, Ended), id, SUCCEEDED);
    case Ended =>
  }

  lemma InvPayments(s: State, payments: map<nat, Payment>)
    requires Inv(s)
    requires forall id :: id in s.payments ==>
      id in payments && payments[id] == s.payments[id].(providerReference := payments[id].providerReference)
    requires forall id :: id in payments && id !in s.payments ==> payments[id].status == PENDING
    ensures Inv(s.(payments := payments))
  {
    var s' := s.(payments := payments);
    forall j | 0 <= j < |s'.procs| ensures ProcOk(s', s'.procs[j]) {
      assert ProcOk(s, s.procs[j]);
    }
    forall k | 0 <= k < |s'.ledger.db.entries| ensures EntryOk(s', s'.ledger.db.entries[k]) {
      assert EntryOk(s, s.ledger.db.entries[k]);
    }
    forall id: nat ensures Credits(s', id) == Credits(s, id) {}
  }

  lemma InvCrash(s: State, i: nat)
    requires Inv(s) && i < |s.procs|
    ensures Inv(Do(s, Crash(i)))
  {
    hide LM.Progress, LM.ReadsAreCurrent, LM.PendingIsNewer, LM.LocksAreExclusive, LM.Ordered, LM.Replay, L.Sound;
    assert ProcOk(s, s.procs[i]);
    if s.procs[i].pc.Crediting? {
      var e := LM.Crash(s.procs[i].pc.tx);
      InvInLedger(s, e);
      InvGoto(s.(ledger := LM.Do(s.ledger, e)), i, Ended);
    } else {
      InvGoto(s, i, Ended);
    }
  }

  lemma InvDo(s: State, e: Event)
    requires Inv(s)
    ensures Inv(Do(s, e))
  {
    hide LM.Progress, LM.ReadsAreCurrent, LM.PendingIsNewer, LM.LocksAreExclusive, LM.Ordered, LM.Replay, L.Sound;
    match e
    case NewPayment(_, _, _, _) => InvPayments(s, Do(s, e).payments);
    case SetProviderReference(_, _) => InvPayments(s, Do(s, e).payments);
    case InitiationFailed(id) => InvStatus(s, id, FAILED);
    case Arrive(_, _, _) =>
      var s' := Do(s, e);
      forall j | 0 <= j < |s'.procs| ensures ProcOk(s', s'.procs[j]) {
        if j < |s.procs| {
          assert ProcOk(s, s.procs[j]);
        }
      }
      forall t | 0 <= t < |s.ledger.txs| && s.ledger.txs[t].op.reference.PaymentRef?
                 && !s.ledger.txs[t].pc.Finished?
        ensures Owned(s'.procs, t)
      {
        assert Owned(s.procs, t);
        var j :| 0 <= j < |s.procs| && s.procs[j].pc == Crediting(t);
        assert s'.procs[j] == s.procs[j];
      }
      forall id: nat ensures Credits(s', id) == Credits(s, id) {}
      forall k | 0 <= k < |s'.ledger.db.entries| ensures EntryOk(s', s'.ledger.db.entries[k]) {
        assert EntryOk(s, s.ledger.db.entries[k]);
      }
    case Step(i, verified, walletId) => if i < |s.procs| { InvStep(s, i, verified, walletId); }
    case Crash(i) => if i < |s.procs| { InvCrash(s, i); }
    case InLedger(le) => if ForeignEvent(le) { InvInLedger(s, le); }
  }

  // ------------------------------------------------------------------ whole runs

  ghost function Run(s: State, events: seq<Event>): State
    requires Inv(s)
    decreases |events|
  {
    if events == [] then s else
      InvDo(s, events[0]);
      Run(Do(s, events[0]), events[1..])
  }

  lemma {:induction false} RunKeepsInv(s: State, events: seq<Event>)
    requires Inv(s)
    ensures Inv(Run(s, events))
    decreases |events|
  {
    hide Do;
    if events != [] {
      InvDo(s, events[0]);
      RunKeepsInv(Do(s, events[0]), events[1..]);
    }
  }

  lemma InitialInv()
    ensures Inv(INITIAL)
  {}

  // However callbacks, crashes and other ledger traffic interleave, a payment is credited at most
  // once, only as a top-up, for its own amount and to its own user; and a committed SUCCEEDED
  // top-up has been credited.
  lemma {:induction false} CreditedExactlyOnce(events: seq<Event>, id: nat)
    ensures Inv(INITIAL)
    ensures var s := Run(INITIAL, events);
      && Credits(s, id) <= 1
      && (id in s.payments && IsTopup(s.payments[id]) && s.payments[id].status == SUCCEEDED ==> Credits(s, id) == 1)
      && (forall k :: 0 <= k < |s.ledger.db.entries| && s.ledger.db.entries[k].reference == L.PaymentRef(id) ==>
            var e := s.ledger.db.entries[k];
            && id in s.payments && IsTopup(s.payments[id])
            && e.kind == L.CREDIT && e.amount == s.payments[id].amount && e.userId == s.payments[id].userId)
  {
    InitialInv();
    RunKeepsInv(INITIAL, events);
    var s := Run(INITIAL, events);
    forall k | 0 <= k < |s.ledger.db.entries| && s.ledger.db.entries[k].reference == L.PaymentRef(id)
      ensures EntryOk(s, s.ledger.db.entries[k])
    {}
  }
}
