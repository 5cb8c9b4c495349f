/** What follows for whole runs of the ledger: refusals are honest, nothing deadlocks, every run of
    steps ends, and what the two balance checks can report. */
module LedgerRuns {
  import opened Common
  import opened Ledger
  import opened LedgerMachine

  // ------------------------------------------------------------------ refusals

  // A transaction is refused only when the operation run alone on the committed state would be.
  lemma RefusalIsSerial(s: State, i: nat, e: LedgerError, id1: nat, id2: nat)
    requires Inv(s) && Enabled(s, i) && StepTx(s, i).txs[i].pc == Finished(Refused(e))
    ensures StepTx(s, i).db == s.db && Apply(s.db, s.txs[i].op, id1, id2) == Failure(e)
  {
    var tx := s.txs[i];
    if tx.pc == Check {
      assert First(tx.op) in tx.rows && Second(tx.op) in tx.rows;
    }
    if tx.pc == LockSecond {
      assert First(tx.op) in tx.rows;
    }
  }

  // ------------------------------------------------------------------ no deadlock

  function Ceiling(txs: seq<Tx>): nat {
    if txs == [] then 0 else
      var c, w := Ceiling(txs[1..]), Second(txs[0].op) + 1;
      if c < w then w else c
  }

  lemma CeilingBounds(txs: seq<Tx>, i: nat)
    requires i < |txs|
    ensures Second(txs[i].op) < Ceiling(txs)
  {
    if i > 0 {
      CeilingBounds(txs[1..], i - 1);
    }
  }

  // Follow who blocks whom: each blocker waits for a strictly larger id, so the chain ends.
  lemma {:induction false} ChainEnds(s: State, i: nat) returns (j: nat)
    requires Inv(s) && i < |s.txs| && s.txs[i].pc == LockSecond
    ensures Enabled(s, j)
    decreases Ceiling(s.txs) - Second(s.txs[i].op)
  {
    hide Sound, Replay, PendingIsNewer, LocksAreExclusive, Ordered, ReadsAreCurrent, FirstDone, BothDone;
    CeilingBounds(s.txs, i);
    if Enabled(s, i) {
      return i;
    }
    j :| 0 <= j < |s.txs| && j != i && Second(s.txs[i].op) in s.txs[j].rows;
    if s.txs[j].pc == LockSecond {
      assert First(s.txs[j].op) == Second(s.txs[i].op);
      CeilingBounds(s.txs, j);
      j := ChainEnds(s, j);
    }
  }

  // While anything is unfinished, something can step.
  lemma NoDeadlock(s: State, i: nat) returns (j: nat)
    requires Inv(s) && i < |s.txs| && !s.txs[i].pc.Finished?
    ensures Enabled(s, j)
  {
    hide Sound, Replay, PendingIsNewer, LocksAreExclusive, Ordered, ReadsAreCurrent, FirstDone, BothDone;
    j := i;
    if !Enabled(s, i) {
      j :| 0 <= j < |s.txs| && j != i && Wanted(s.txs[i]).value in s.txs[j].rows;
      if s.txs[j].pc == LockSecond {
        j := ChainEnds(s, j);
      }
    }
  }

  // ------------------------------------------------------------------ every run of steps ends

  function StagesLeft(pc: Pc): nat {
    match pc
    case Begin => 9
    case LockFirst => 8
    case LockSecond => 7
    case Check => 6
    case AppendFirst => 5
    case WriteFirst => 4
    case AppendSecond => 3
    case WriteSecond => 2
    case Commit => 1
    case Finished(_) => 0
  }

  function StepsLeft(txs: seq<Tx>): nat {
    if txs == [] then 0 else StagesLeft(txs[0].pc) + StepsLeft(txs[1..])
  }

  lemma StepsLeftUpdate(txs: seq<Tx>, i: nat, tx: Tx)
    requires i < |txs|
    ensures StepsLeft(txs[i := tx]) == StepsLeft(txs) - StagesLeft(txs[i].pc) + StagesLeft(tx.pc)
  {
    if i == 0 {
      assert txs[i := tx][1..] == txs[1..];
    } else {
      assert txs[i := tx][1..] == txs[1..][i - 1 := tx];
      StepsLeftUpdate(txs[1..], i - 1, tx);
    }
  }

  lemma StageFalls(s: State, i: nat)
    requires Inv(s) && Enabled(s, i)
    ensures StepTx(s, i).txs == s.txs[i := StepTx(s, i).txs[i]]
    ensures StagesLeft(StepTx(s, i).txs[i].pc) < StagesLeft(s.txs[i].pc)
  {
    hide Sound, Replay, PendingIsNewer, LocksAreExclusive, Ordered;
    var pc := s.txs[i].pc;
    if pc == Commit {
      CommitIsApply(s, i);
    }
  }

  lemma StepsDecrease(s: State, i: nat)
    requires Inv(s) && Enabled(s, i)
    ensures StepsLeft(StepTx(s, i).txs) < StepsLeft(s.txs)
  {
    StageFalls(s, i);
    var tx := StepTx(s, i).txs[i];
    StepsLeftUpdate(s.txs, i, tx);
  }

  // Every event of the schedule is a step that its transaction can take.
  ghost predicate Productive(s: State, schedule: seq<Event>)
    requires Inv(s)
    decreases |schedule|
  {
    schedule == [] ||
    (schedule[0].Step? && Enabled(s, schedule[0].i)
     && (InvDo(s, schedule[0]); Productive(Do(s, schedule[0]), schedule[1..])))
  }

  // No scheduler can keep a finite set of transactions busy for longer than the steps they have.
  lemma {:induction false} SchedulesAreShort(s: State, schedule: seq<Event>)
    requires Inv(s) && Productive(s, schedule)
    ensures |schedule| <= StepsLeft(s.txs)
    decreases |schedule|
  {
    if schedule != [] {
      StepsDecrease(s, schedule[0].i);
      InvDo(s, schedule[0]);
      SchedulesAreShort(Do(s, schedule[0]), schedule[1..]);
    }
  }

  ghost predicate AllFinished(txs: seq<Tx>) {
    forall i :: 0 <= i < |txs| ==> txs[i].pc.Finished?
  }

  // A schedule that cannot be extended has finished everything, and one always exists.
  lemma {:induction false} EverythingFinishes(s: State) returns (schedule: seq<Event>)
    requires Inv(s)
    ensures Productive(s, schedule) && AllFinished(Run(s, schedule).txs)
    decreases StepsLeft(s.txs)
  {
    if AllFinished(s.txs) {
      return [];
    }
    var i :| 0 <= i < |s.txs| && !s.txs[i].pc.Finished?;
    var j := NoDeadlock(s, i);
    StepsDecrease(s, j);
    InvDo(s, Step(j));
    var rest := EverythingFinishes(Do(s, Step(j)));
    schedule := [Step(j)] + rest;
    assert schedule[1..] == rest;
  }

  // ------------------------------------------------------------------ growth of the ledger

  lemma DoAppends(s: State, e: Event)
    requires Inv(s)
    ensures var s' := Do(s, e);
      && s.db.entries <= s'.db.entries
      && (forall w :: w in s.db.wallets ==> w in s'.db.wallets && s'.db.wallets[w].userId == s.db.wallets[w].userId)
  {
    hide Sound, Replay, Progress, PendingIsNewer, LocksAreExclusive, Ordered, ReadsAreCurrent;
  }

  lemma {:induction false} RunAppends(s: State, events: seq<Event>)
    requires Inv(s)
    ensures var s' := Run(s, events);
      && s.db.entries <= s'.db.entries
      && (forall w :: w in s.db.wallets ==> w in s'.db.wallets && s'.db.wallets[w].userId == s.db.wallets[w].userId)
    decreases |events|
  {
    hide Do;
    if events != [] {
      InvDo(s, events[0]);
      DoAppends(s, events[0]);
      RunAppends(Do(s, events[0]), events[1..]);
    }
  }

  // The entries committed during a run.
  ghost function Since(s: State, events: seq<Event>): (r: seq<Entry>)
    requires Inv(s)
    ensures Run(s, events).db.entries == s.db.entries + r
  {
    RunAppends(s, events);
    Run(s, events).db.entries[|s.db.entries|..]
  }

  // Ids are handed out before commit, yet within one wallet later entries always have larger ids:
  // the sequence number is taken while the wallet row is locked.
  lemma LaterEntriesAreNewer(s: State, events: seq<Event>, older: Entry, newer: Entry)
    requires Inv(s) && older in s.db.entries && newer in Since(s, events) && older.walletId == newer.walletId
    ensures older.id < newer.id
  {
    hide Sound, Replay, PendingIsNewer, LocksAreExclusive, Progress, ReadsAreCurrent, Run;
    RunKeepsInv(s, events);
    var es := Run(s, events).db.entries;
    var n := |s.db.entries|;
    var a :| 0 <= a < n && s.db.entries[a] == older;
    var b :| 0 <= b < |Since(s, events)| && Since(s, events)[b] == newer;
    assert es[a] == older && es[n + b] == newer;
  }

  // ------------------------------------------------------------------ the two balance checks

  // verifyBalance reads the stored balance and the sum of the entries in two statements.
  function VerifyBalance(atFirstRead: Db, atSecondRead: Db, w: nat): Result<(), LedgerError> {
    if w !in atFirstRead.wallets then Failure(NOT_FOUND)
    else if Computed(atSecondRead.entries, w) != atFirstRead.wallets[w].balance then Failure(BALANCE_MISMATCH)
    else Success(())
  }

  // It reports a mismatch exactly when the entries committed between its two reads do not cancel
  // out on that wallet.
  lemma VerifyBalanceExactly(s: State, between: seq<Event>, w: nat)
    requires Inv(s) && w in s.db.wallets
    ensures VerifyBalance(s.db, Run(s, between).db, w)
         == if Computed(Since(s, between), w) == 0 then Success(()) else Failure(BALANCE_MISMATCH)
  {
    ComputedConcat(s.db.entries, Since(s, between), w);
  }

  // In particular it never does when nothing moved on the wallet meanwhile.
  lemma VerifyBalanceQuiet(s: State, between: seq<Event>, w: nat)
    requires Inv(s) && w in s.db.wallets
    requires forall e :: e in Since(s, between) ==> e.walletId != w
    ensures VerifyBalance(s.db, Run(s, between).db, w) == Success(())
  {
    VerifyBalanceExactly(s, between, w);
    ComputedAbsent(Since(s, between), w);
  }

  // One wallet, and one credit taken up to its commit.
  const UNTIL_COMMIT: seq<Event> :=
    [OpenWallet(1, 7), Spawn(Credit(1, 100, NoReference))]
    + ([Step(0), Step(0)] + [Step(0), Step(0), Step(0)])

  // A credit that commits between the two reads makes verifyBalance report a sound wallet.
  lemma VerifyBalanceCanMisreport()
    ensures Inv(INITIAL)
    ensures Inv(Run(INITIAL, UNTIL_COMMIT))
    ensures var s := Run(INITIAL, UNTIL_COMMIT);
      1 in s.db.wallets && VerifyBalance(s.db, Run(s, [Step(0)]).db, 1) == Failure(BALANCE_MISMATCH)
  {
    var op := Credit(1, 100, NoReference);
    var s2 := State(Db(map[1 := Wallet(7, 0)], []), 1, [Start(op)], [Opened(1, 7)]);
    WalletAndCreditStart(op, [Step(0), Step(0)] + [Step(0), Step(0), Step(0)], s2);
    var s4 := CreditLocks(s2, op, [Step(0), Step(0), Step(0)]);
    var s7 := CreditWrites(s4, op);
    CreditCommits(s7, op);
  }

  lemma CreditCommits(s7: State, op: Op)
    requires Inv(s7) && op == Credit(1, 100, NoReference) && s7.db == Db(map[1 := Wallet(7, 0)], [])
    requires s7.txs == [Tx(op, Commit, map[1 := Wallet(7, 0)],
                           [Entry(1, 1, 7, CREDIT, 100, NoReference)], map[1 := 100])]
    ensures Computed(Run(s7, [Step(0)]).db.entries, 1) == 100
  {
    var e, last := Entry(1, 1, 7, CREDIT, 100, NoReference), Do(s7, Step(0));
    RunTakes(s7, Step(0), [], last);
    assert last.db.entries == [e];
    assert Computed([e], 1) == Computed([e][..0], 1) + 100;
  }

  lemma WalletAndCreditStart(op: Op, rest: seq<Event>, s2: State)
    requires Inv(INITIAL) && s2 == State(Db(map[1 := Wallet(7, 0)], []), 1, [Start(op)], [Opened(1, 7)])
    ensures Inv(s2) && Run(INITIAL, [OpenWallet(1, 7), Spawn(op)] + rest) == Run(s2, rest)
  {
    var s1 := s2.(txs := []);
    RunTakes(INITIAL, OpenWallet(1, 7), [Spawn(op)] + rest, s1);
    RunTakes(s1, Spawn(op), rest, s2);
    assert [OpenWallet(1, 7), Spawn(op)] + rest == [OpenWallet(1, 7)] + ([Spawn(op)] + rest);
  }

  lemma CreditLocks(s2: State, op: Op, rest: seq<Event>) returns (s4: State)
    requires Inv(s2) && op == Credit(1, 100, NoReference)
    requires s2.txs == [Start(op)] && s2.db.wallets == map[1 := Wallet(7, 0)]
    ensures s4 == s2.(txs := [Tx(op, Check, map[1 := Wallet(7, 0)], [], map[])])
    ensures Inv(s4) && Run(s2, [Step(0), Step(0)] + rest) == Run(s4, rest)
  {
    var s3 := s2.(txs := [Tx(op, LockFirst, map[], [], map[])]);
    s4 := s2.(txs := [Tx(op, Check, map[1 := Wallet(7, 0)], [], map[])]);
    RunTakes(s2, Step(0), [Step(0)] + rest, s3);
    RunTakes(s3, Step(0), rest, s4);
    assert [Step(0), Step(0)] + rest == [Step(0)] + ([Step(0)] + rest);
  }

  lemma CreditWrites(s4: State, op: Op) returns (s7: State)
    requires Inv(s4) && op == Credit(1, 100, NoReference) && s4.nextId == 1
    requires s4.txs == [Tx(op, Check, map[1 := Wallet(7, 0)], [], map[])]
    ensures s7 == s4.(nextId := 2, txs := [Tx(op, Commit, map[1 := Wallet(7, 0)],
                                              [Entry(1, 1, 7, CREDIT, 100, NoReference)], map[1 := 100])])
    ensures Inv(s7) && Run(s4, [Step(0), Step(0), Step(0)]) == s7
  {
    hide Sound, Replay, PendingIsNewer, LocksAreExclusive, Ordered, ReadsAreCurrent, Run;
    var row, e := Wallet(7, 0), Entry(1, 1, 7, CREDIT, 100, NoReference);
    var s5 := s4.(txs := [Tx(op, AppendFirst, map[1 := row], [], map[])]);
    var s6 := s4.(nextId := 2, txs := [Tx(op, WriteFirst, map[1 := row], [e], map[])]);
    s7 := s4.(nextId := 2, txs := [Tx(op, Commit, map[1 := row], [e], map[1 := 100])]);
    RunTakes(s4, Step(0), [Step(0), Step(0)], s5);
    RunTakes(s5, Step(0), [Step(0)], s6);
    RunEnds(s6, Step(0), s7);
    assert [Step(0)] + [Step(0)] == [Step(0), Step(0)] && [Step(0)] + [Step(0), Step(0)] == [Step(0), Step(0), Step(0)];
  }

  lemma RunTakes(s: State, e: Event, rest: seq<Event>, s': State)
    requires Inv(s) && Do(s, e) == s'
    ensures Inv(s') && Run(s, [e] + rest) == Run(s', rest)
  {
    InvDo(s, e);
    assert ([e] + rest)[1..] == rest;
  }

  lemma RunEnds(s: State, e: Event, s': State)
    requires Inv(s) && Do(s, e) == s'
    ensures Inv(s') && Run(s, [e]) == s'
  {
    InvDo(s, e);
  }
}
