/** Why concurrent callbacks never block each other for good, and how long they can keep busy. */
module CallbackSchedules {
  import opened Common
  import opened PaymentTypes
  import L = Ledger
  import LM = LedgerMachine
  import LR = LedgerRuns
  import CF = CallbackFinality
  import opened CallbackMachine

  // ------------------------------------------------------------------ nothing blocks for good

  // While a callback is unfinished some step, its own, a row holder's or the ledger's, changes the state.
  lemma SomethingMoves(s: State, i: nat) returns (e: Event)
    requires Inv(s) && i < |s.procs| && s.procs[i].pc != Ended
    ensures (e.Step? || (e.InLedger? && e.e.Step?)) && Do(s, e) != s
  {
    var p := s.procs[i];
    if p.pc in {Cancelling, Failing, LockingRow} && RowLocked(s, p.paymentId) {
      var k :| 0 <= k < |s.procs| && HoldsRow(s.procs[k]) && s.procs[k].paymentId == p.paymentId;
      e := HolderMoves(s, k);
    } else if HoldsRow(p) {
      e := HolderMoves(s, i);
    } else {
      e := Step(i, true, 0);
      assert Do(s, e).procs[i].pc != p.pc;
    }
  }

  lemma HolderMoves(s: State, k: nat) returns (e: Event)
    requires Inv(s) && k < |s.procs| && HoldsRow(s.procs[k])
    ensures (e.Step? || (e.InLedger? && e.e.Step?)) && Do(s, e) != s
  {
    hide LM.Progress, LM.PendingIsNewer, LM.Ordered, LM.Replay, LM.ReadsAreCurrent, LM.LocksAreExclusive, L.Count;
    var p := s.procs[k];
    assert ProcOk(s, p);
    if p.pc.Crediting? && !s.ledger.txs[p.pc.tx].pc.Finished? {
      var j := LR.NoDeadlock(s.ledger, p.pc.tx);
      e := InLedger(LM.Step(j));
      LR.StepsDecrease(s.ledger, j);
    } else if p.pc == OpeningWallet {
      e := OpeningMoves(s, k);
    } else {
      e := Step(k, true, 0);
      assert Do(s, e).procs[k].pc != p.pc;
    }
  }

  lemma OpeningMoves(s: State, k: nat) returns (e: Event)
    requires Inv(s) && k < |s.procs| && s.procs[k].pc == OpeningWallet
    ensures e.Step? && Do(s, e) != s
  {
    hide LM.Progress, LM.PendingIsNewer, LM.Ordered, LM.Replay, LM.ReadsAreCurrent, LM.LocksAreExclusive, L.Count;
    assert ProcOk(s, s.procs[k]);
    var w := CF.UnusedId(s.ledger.db.wallets);
    var user := s.payments[s.procs[k].paymentId].userId;
    LM.InvDo(s.ledger, LM.OpenWallet(w, user));
    var grown := LM.Do(s.ledger, LM.OpenWallet(w, user));
    assert exists v :: v in grown.db.wallets && grown.db.wallets[v].userId == user by {
      assert w in grown.db.wallets
          || exists v :: v in s.ledger.db.wallets && s.ledger.db.wallets[v].userId == user;
    }
    e := Step(k, true, w);
    assert Do(s, e).procs[k].pc.Crediting?;
  }

  // ------------------------------------------------------------------ every run of steps ends

  // Opening the wallet starts a ledger transaction, whose steps are then counted with the ledger's.
  function StagesLeft(pc: Pc): nat {
    match pc
    case Start => 16
    case Verifying => 15
    case LockingRow => 14
    case Reconciling => 13
    case OpeningWallet => 12
    case Crediting(_) => 2
    case Committing => 1
    case Cancelling => 1
    case Failing => 1
    case Ended => 0
  }

  function ProcsLeft(procs: seq<Proc>): nat {
    if procs == [] then 0 else StagesLeft(procs[0].pc) + ProcsLeft(procs[1..])
  }

  function WorkLeft(s: State): nat {
    ProcsLeft(s.procs) + LR.StepsLeft(s.ledger.txs)
  }

  // A step of a callback or of a ledger transaction that is not waiting.
  ghost predicate Works(s: State, e: Event)
    requires Inv(s)
  {
    (e.Step? || (e.InLedger? && e.e.Step?)) && Do(s, e) != s
  }

  lemma ProcsLeftUpdate(procs: seq<Proc>, i: nat, p: Proc)
    requires i < |procs|
    ensures ProcsLeft(procs[i := p]) == ProcsLeft(procs) - StagesLeft(procs[i].pc) + StagesLeft(p.pc)
  {
    if i == 0 {
      assert procs[i := p][1..] == procs[1..];
    } else {
      assert procs[i := p][1..] == procs[1..][i - 1 := p];
      ProcsLeftUpdate(procs[1..], i - 1, p);
    }
  }

  lemma StepsLeftPush(txs: seq<LM.Tx>, tx: LM.Tx)
    ensures LR.StepsLeft(txs + [tx]) == LR.StepsLeft(txs) + LR.StagesLeft(tx.pc)
  {
    if txs != [] {
      assert (txs + [tx])[1..] == txs[1..] + [tx];
      StepsLeftPush(txs[1..], tx);
    }
  }

  // A callback that moves goes on by at least one stage; only OpeningWallet adds to the ledger's work.
  lemma StageFalls(s: State, i: nat, verified: bool, freshWallet: nat)
    requires Inv(s) && i < |s.procs| && StepProc(s, i, verified, freshWallet) != s
    ensures var s' := StepProc(s, i, verified, freshWallet);
      && s'.procs == s.procs[i := s'.procs[i]]
      && LR.StepsLeft(s'.ledger.txs) + StagesLeft(s'.procs[i].pc) < LR.StepsLeft(s.ledger.txs) + StagesLeft(s.procs[i].pc)
  {
    hide LM.Inv, LR.StepsLeft, L.Count, CreditsOwned, RowsExclusive, EntryOk, ProcOk;
    var p := s.procs[i];
    if p.pc == OpeningWallet {
      BeginCreditSpawns(s, i, s.payments[p.paymentId], freshWallet);
    }
  }

  lemma BeginCreditSpawns(s: State, i: nat, payment: Payment, freshWallet: nat)
    requires LM.Inv(s.ledger) && i < |s.procs|
    ensures var s' := BeginCredit(s, i, payment, freshWallet);
      s' == s || (s'.procs == s.procs[i := s.procs[i].(pc := Crediting(|s.ledger.txs|))]
                  && LR.StepsLeft(s'.ledger.txs) == LR.StepsLeft(s.ledger.txs) + 9)
  {
    hide LM.Progress, LM.PendingIsNewer, LM.Ordered, LM.Replay, LM.ReadsAreCurrent, LM.LocksAreExclusive;
    LM.InvDo(s.ledger, LM.OpenWallet(freshWallet, payment.userId));
    var grown := LM.Do(s.ledger, LM.OpenWallet(freshWallet, payment.userId));
    assert grown.txs == s.ledger.txs;
    var wallet := L.OwnedBy(grown.db.wallets, payment.userId);
    if wallet.Some? {
      var op := L.Credit(wallet.value, payment.amount, L.PaymentRef(s.procs[i].paymentId));
      StepsLeftPush(grown.txs, LM.Start(op));
    }
  }

  lemma WorkFalls(s: State, e: Event)
    requires Inv(s) && Works(s, e)
    ensures WorkLeft(Do(s, e)) < WorkLeft(s)
  {
    hide LM.Inv, LR.StepsLeft, ProcsLeft, StagesLeft, StepProc, CreditsOwned, RowsExclusive, EntryOk, ProcOk;
    match e
    case Step(i, verified, walletId) =>
      StageFalls(s, i, verified, walletId);
      ProcsLeftUpdate(s.procs, i, StepProc(s, i, verified, walletId).procs[i]);
    case InLedger(le) => LR.StepsDecrease(s.ledger, le.i);
  }

  ghost predicate Productive(s: State, schedule: seq<Event>)
    requires Inv(s)
    decreases |schedule|
  {
    schedule == [] ||
    (Works(s, schedule[0]) && (InvDo(s, schedule[0]); Productive(Do(s, schedule[0]), schedule[1..])))
  }

  lemma LedgerKept(s: State)
    requires Inv(s)
    ensures LM.Inv(s.ledger)
  {}

  // Without new callbacks or transactions no schedule is longer than the work that is left.
  lemma {:induction false} SchedulesAreShort(s: State, schedule: seq<Event>)
    requires Inv(s) && Productive(s, schedule)
    ensures |schedule| <= WorkLeft(s)
    decreases |schedule|
  {
    hide Inv, Works, Do, WorkLeft;
    LedgerKept(s);
    if schedule != [] {
      WorkFalls(s, schedule[0]);
      InvDo(s, schedule[0]);
      SchedulesAreShort(Do(s, schedule[0]), schedule[1..]);
    }
  }

  ghost predicate AllEnded(s: State) {
    && (forall i :: 0 <= i < |s.procs| ==> s.procs[i].pc == Ended)
    && LR.AllFinished(s.ledger.txs)
  }

  // Something works until every callback has ended and every ledger transaction has finished.
  lemma NothingStalls(s: State) returns (e: Event)
    requires Inv(s) && !AllEnded(s)
    ensures Works(s, e)
  {
    hide LM.Inv, L.Count, CreditsOwned, RowsExclusive, EntryOk, ProcOk, StepProc;
    if i :| 0 <= i < |s.procs| && s.procs[i].pc != Ended {
      e := SomethingMoves(s, i);
    } else {
      var t :| 0 <= t < |s.ledger.txs| && !s.ledger.txs[t].pc.Finished?;
      var j := LR.NoDeadlock(s.ledger, t);
      LR.StepsDecrease(s.ledger, j);
      e := InLedger(LM.Step(j));
    }
  }

  // From every reachable state a schedule exists that ends everything.
  lemma {:induction false} EverythingEnds(s: State) returns (schedule: seq<Event>)
    requires Inv(s)
    ensures Productive(s, schedule) && AllEnded(Run(s, schedule))
    decreases WorkLeft(s)
  {
    hide Inv, Works, Do, WorkLeft, AllEnded;
    LedgerKept(s);
    if AllEnded(s) {
      return [];
    }
    var e := NothingStalls(s);
    WorkFalls(s, e);
    InvDo(s, e);
    var rest := EverythingEnds(Do(s, e));
    schedule := [e] + rest;
    assert schedule[1..] == rest;
  }
}
