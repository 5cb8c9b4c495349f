/** The ledger's transactions as interleaved steps under row locks, with crashes between any two.

    A transaction sees the committed tables; what it writes stays private until it commits. A row
    lock is held from SELECT ... FOR UPDATE to commit or abort, and the locked read returns the
    newest committed row. Entry ids come from a sequence that no abort gives back. */
module LedgerMachine {
  import opened Common
  import opened Ledger

  datatype Outcome = Committed | Refused(error: LedgerError) | Crashed

  datatype Pc =
    | Begin | LockFirst | LockSecond | Check
    | AppendFirst | WriteFirst | AppendSecond | WriteSecond | Commit
    | Finished(outcome: Outcome)

  // rows: the locked rows, as read; appended and written: the uncommitted entries and balances.
  datatype Tx =
    Tx(op: Op, pc: Pc, rows: map<nat, Wallet>, appended: seq<Entry>, written: map<nat, int>)

  // What reached the committed tables, in commit order.
  datatype Change = Opened(walletId: nat, userId: nat) | Applied(op: Op, id1: nat, id2: nat)

  datatype State = State(db: Db, nextId: nat, txs: seq<Tx>, history: seq<Change>)

  datatype Event =
    | Spawn(op: Op)
    | Step(i: nat)
    | Crash(i: nat)
    | OpenWallet(walletId: nat, userId: nat)

  const INITIAL := State(Db(map[], []), 1, [], [])

  // ------------------------------------------------------------------ one transaction

  // transfer takes the lower id first.
  function First(op: Op): nat {
    match op
    case Credit(w, _, _) => w
    case Debit(w, _, _) => w
    case Transfer(v, w, _, _) => if v < w then v else w
  }

  function Second(op: Op): nat {
    match op
    case Credit(w, _, _) => w
    case Debit(w, _, _) => w
    case Transfer(v, w, _, _) => if v < w then w else v
  }

  // The wallet of the first write, and its direction.
  function Source(op: Op): nat {
    if op.Transfer? then op.fromId else op.walletId
  }

  function SourceKind(op: Op): Kind {
    if op.Credit? then CREDIT else DEBIT
  }

  predicate WellFormed(op: Op) {
    0 < op.amount && (op.Transfer? ==> op.fromId != op.toId)
  }

  function Start(op: Op): Tx {
    Tx(op, Begin, map[], [], map[])
  }

  function Finish(tx: Tx, outcome: Outcome): Tx {
    Tx(tx.op, Finished(outcome), map[], [], map[])
  }

  // The row the transaction wants next, if it is about to lock one.
  function Wanted(tx: Tx): Option<nat> {
    if tx.pc == LockFirst then Some(First(tx.op))
    else if tx.pc == LockSecond then Some(Second(tx.op))
    else None
  }

  predicate LockedByOther(s: State, i: nat, w: nat) {
    exists j :: 0 <= j < |s.txs| && j != i && w in s.txs[j].rows
  }

  predicate Enabled(s: State, i: nat) {
    && i < |s.txs|
    && !s.txs[i].pc.Finished?
    && (Wanted(s.txs[i]).Some? ==> !LockedByOther(s, i, Wanted(s.txs[i]).value))
  }

  function Lock(s: State, tx: Tx, w: nat, next: Pc): Tx {
    if w in s.db.wallets then tx.(rows := tx.rows[w := s.db.wallets[w]], pc := next)
    else Finish(tx, Refused(NOT_FOUND))
  }

  // The private part of a step: every pc but Commit. The rows read must cover what it touches.
  function Advance(s: State, tx: Tx): Tx
    requires !tx.pc.Finished? && tx.pc != Commit
    requires tx.pc in {Check, AppendFirst, WriteFirst} ==> Source(tx.op) in tx.rows
    requires tx.pc in {AppendSecond, WriteSecond} ==> tx.op.Transfer? && tx.op.toId in tx.rows
  {
    var op := tx.op;
    match tx.pc
    case Begin => if WellFormed(op) then tx.(pc := LockFirst) else Finish(tx, Refused(VALIDATION_ERROR))
    case LockFirst => Lock(s, tx, First(op), if op.Transfer? then LockSecond else Check)
    case LockSecond => Lock(s, tx, Second(op), Check)
    case Check =>
      if !op.Credit? && tx.rows[Source(op)].balance - op.amount < 0 then Finish(tx, Refused(INSUFFICIENT_FUNDS))
      else tx.(pc := AppendFirst)
    case AppendFirst => tx.(appended := [EntryFor(tx, Source(op), SourceKind(op), s.nextId)], pc := WriteFirst)
    case WriteFirst =>
      var b := tx.rows[Source(op)].balance;
      tx.(written := map[Source(op) := if op.Credit? then b + op.amount else b - op.amount],
          pc := if op.Transfer? then AppendSecond else Commit)
    case AppendSecond => tx.(appended := tx.appended + [EntryFor(tx, op.toId, CREDIT, s.nextId)], pc := WriteSecond)
    case WriteSecond => tx.(written := tx.written[op.toId := tx.rows[op.toId].balance + op.amount], pc := Commit)
  }

  function EntryFor(tx: Tx, w: nat, kind: Kind, id: nat): Entry
    requires w in tx.rows
  {
    Entry(id, w, tx.rows[w].userId, kind, tx.op.amount, tx.op.reference)
  }

  function Publish(db: Db, tx: Tx): Db
    requires tx.written.Keys <= db.wallets.Keys
  {
    Db(map w | w in db.wallets ::
         if w in tx.written then db.wallets[w].(balance := tx.written[w]) else db.wallets[w],
       db.entries + tx.appended)
  }

  function IdOf(tx: Tx, k: nat): nat {
    if k < |tx.appended| then tx.appended[k].id else 0
  }

  function StepTx(s: State, i: nat): State
    requires Inv(s) && Enabled(s, i)
  {
    var tx := s.txs[i];
    if tx.pc == Commit then
      State(Publish(s.db, tx), s.nextId, s.txs[i := Finish(tx, Committed)],
            s.history + [Applied(tx.op, IdOf(tx, 0), IdOf(tx, 1))])
    else
      s.(txs := s.txs[i := Advance(s, tx)],
         nextId := if tx.pc in {AppendFirst, AppendSecond} then s.nextId + 1 else s.nextId)
  }

  // An event that is not enabled leaves the state as it is.
  function Do(s: State, e: Event): State
    requires Inv(s)
  {
    match e
    case Spawn(op) => s.(txs := s.txs + [Start(op)])
    case Step(i) => if Enabled(s, i) then StepTx(s, i) else s
    case Crash(i) =>
      if i < |s.txs| && !s.txs[i].pc.Finished? then s.(txs := s.txs[i := Finish(s.txs[i], Crashed)]) else s
    case OpenWallet(w, user) =>
      if w in s.db.wallets || (exists v :: v in s.db.wallets && s.db.wallets[v].userId == user) then s
      else s.(db := s.db.(wallets := s.db.wallets[w := Wallet(user, 0)]), history := s.history + [Opened(w, user)])
  }

  // ------------------------------------------------------------------ the invariant

  // How far a transaction has come fixes exactly what it holds and what it has written privately.
  ghost predicate Progress(db: Db, tx: Tx) {
    var op := tx.op;
    var moved := op.Credit? || (Source(op) in tx.rows && op.amount <= tx.rows[Source(op)].balance);
    && (tx.pc != Begin && !tx.pc.Finished? ==> WellFormed(op))
    && (match tx.pc
        case Begin => tx.rows == map[] && tx.appended == [] && tx.written == map[]
        case LockFirst => tx.rows == map[] && tx.appended == [] && tx.written == map[]
        case LockSecond => op.Transfer? && tx.rows.Keys == {First(op)} && tx.appended == [] && tx.written == map[]
        case Check => tx.rows.Keys == {First(op), Second(op)} && tx.appended == [] && tx.written == map[]
        case AppendFirst =>
          tx.rows.Keys == {First(op), Second(op)} && moved && tx.appended == [] && tx.written == map[]
        case WriteFirst =>
          && tx.rows.Keys == {First(op), Second(op)} && moved && tx.written == map[]
          && tx.appended == [EntryFor(tx, Source(op), SourceKind(op), IdOf(tx, 0))]
        case AppendSecond => op.Transfer? && FirstDone(tx) && moved && |tx.appended| == 1
        case WriteSecond =>
          && op.Transfer? && FirstDone(tx) && moved
          && tx.appended == [tx.appended[0], EntryFor(tx, op.toId, CREDIT, IdOf(tx, 1))]
        case Commit =>
          && moved
          && (!op.Transfer? ==> FirstDone(tx) && |tx.appended| == 1)
          && (op.Transfer? ==> BothDone(tx))
        case Finished(_) => tx.rows == map[] && tx.appended == [] && tx.written == map[])
  }

  function FirstBalance(tx: Tx): int
    requires Source(tx.op) in tx.rows
  {
    var b := tx.rows[Source(tx.op)].balance;
    if tx.op.Credit? then b + tx.op.amount else b - tx.op.amount
  }

  ghost predicate FirstDone(tx: Tx) {
    && tx.rows.Keys == {First(tx.op), Second(tx.op)}
    && 1 <= |tx.appended|
    && tx.appended[0] == EntryFor(tx, Source(tx.op), SourceKind(tx.op), IdOf(tx, 0))
    && tx.written == map[Source(tx.op) := FirstBalance(tx)]
  }

  ghost predicate BothDone(tx: Tx)
    requires tx.op.Transfer?
  {
    && tx.rows.Keys == {First(tx.op), Second(tx.op)}
    && tx.appended == [EntryFor(tx, tx.op.fromId, DEBIT, IdOf(tx, 0)), EntryFor(tx, tx.op.toId, CREDIT, IdOf(tx, 1))]
    && tx.written == map[tx.op.fromId := FirstBalance(tx), tx.op.toId := tx.rows[tx.op.toId].balance + tx.op.amount]
  }

  // A row stays as it was read for as long as its lock is held.
  ghost predicate ReadsAreCurrent(db: Db, tx: Tx) {
    forall w :: w in tx.rows ==> w in db.wallets && db.wallets[w] == tx.rows[w]
  }

  ghost predicate LocksAreExclusive(txs: seq<Tx>) {
    forall i, j :: 0 <= i < j < |txs| ==> txs[i].rows.Keys !! txs[j].rows.Keys
  }

  // Within one wallet, entries are committed in ascending id order.
  ghost predicate Ordered(entries: seq<Entry>) {
    forall i, j :: 0 <= i < j < |entries| && entries[i].walletId == entries[j].walletId ==>
      entries[i].id < entries[j].id
  }

  // An uncommitted entry is newer than every committed entry of the wallet it holds locked.
  ghost predicate PendingIsNewer(entries: seq<Entry>, nextId: nat, tx: Tx) {
    forall e :: e in tx.appended ==>
      && e.id < nextId && e.walletId in tx.rows
      && forall c :: c in entries && c.walletId == e.walletId ==> c.id < e.id
  }

  ghost predicate IdsIssued(entries: seq<Entry>, nextId: nat) {
    forall e :: e in entries ==> e.id < nextId
  }

  ghost predicate Inv(s: State) {
    && Sound(s.db)
    && LocksAreExclusive(s.txs)
    && Ordered(s.db.entries) && IdsIssued(s.db.entries, s.nextId)
    && (forall i :: 0 <= i < |s.txs| ==>
          Progress(s.db, s.txs[i]) && ReadsAreCurrent(s.db, s.txs[i])
          && PendingIsNewer(s.db.entries, s.nextId, s.txs[i]))
    && Replay(s.history) == s.db
  }

  // ------------------------------------------------------------------ serial meaning

  // The committed changes, run one after another by the atomic operations.
  function Replay(history: seq<Change>): Db {
    if history == [] then INITIAL.db else
      var n := |history| - 1;
      var db := Replay(history[..n]);
      match history[n]
      case Opened(w, user) => db.(wallets := db.wallets[w := Wallet(user, 0)])
      case Applied(op, id1, id2) => var r := Apply(db, op, id1, id2); if r.Success? then r.value else db
  }

  // ------------------------------------------------------------------ every event keeps the invariant

  lemma CommitIsApply(s: State, i: nat)
    requires Inv(s) && i < |s.txs| && s.txs[i].pc == Commit
    ensures s.txs[i].written.Keys <= s.db.wallets.Keys
    ensures Apply(s.db, s.txs[i].op, IdOf(s.txs[i], 0), IdOf(s.txs[i], 1)) == Success(Publish(s.db, s.txs[i]))
  {
    hide Sound, Computed, Replay, PendingIsNewer, LocksAreExclusive, Ordered;
    var tx := s.txs[i];
    var op := tx.op;
    assert Source(op) in tx.rows && First(op) in tx.rows && Second(op) in tx.rows;
    var r := Apply(s.db, op, IdOf(tx, 0), IdOf(tx, 1));
    assert r.Success?;
    var p := Publish(s.db, tx);
    if op.Transfer? {
      assert r.value.entries == p.entries;
    } else {
      assert tx.appended == [tx.appended[0]];
    }
    assert r.value.wallets == p.wallets;
  }

  lemma AdvanceKeepsProgress(s: State, i: nat)
    requires Inv(s) && Enabled(s, i) && s.txs[i].pc != Commit
    ensures var tx' := Advance(s, s.txs[i]);
      && Progress(s.db, tx') && ReadsAreCurrent(s.db, tx')
      && (forall w :: w in tx'.rows ==> w in s.txs[i].rows || Wanted(s.txs[i]) == Some(w))
  {
    hide Sound, Replay, PendingIsNewer, LocksAreExclusive, Ordered;
  }

  lemma AdvanceKeepsIds(s: State, i: nat)
    requires Inv(s) && Enabled(s, i) && s.txs[i].pc != Commit
    ensures PendingIsNewer(s.db.entries, StepTx(s, i).nextId, Advance(s, s.txs[i]))
  {
    var tx, tx' := s.txs[i], Advance(s, s.txs[i]);
    forall e | e in tx'.appended
      ensures e in tx.appended || e.id == s.nextId
      ensures e.walletId in tx'.rows
    {}
  }

  lemma InvAdvance(s: State, i: nat)
    requires Inv(s) && Enabled(s, i) && s.txs[i].pc != Commit
    ensures Inv(StepTx(s, i))
  {
    var s' := StepTx(s, i);
    AdvanceKeepsProgress(s, i);
    AdvanceKeepsIds(s, i);
    forall j, k | 0 <= j < k < |s'.txs| ensures s'.txs[j].rows.Keys !! s'.txs[k].rows.Keys {
      if j == i || k == i {
        var other := if j == i then k else j;
        assert s'.txs[other] == s.txs[other];
        assert s.txs[i].rows.Keys !! s.txs[other].rows.Keys;
        assert Wanted(s.txs[i]).Some? ==> Wanted(s.txs[i]).value !in s.txs[other].rows;
      }
    }
    forall j | 0 <= j < |s'.txs|
      ensures PendingIsNewer(s'.db.entries, s'.nextId, s'.txs[j])
    {
      if j != i {
        assert s'.txs[j] == s.txs[j];
      }
    }
  }

  // A commit touches only rows its transaction holds, so no other transaction's reads go stale.
  lemma CommitKeepsOthers(s: State, i: nat, j: nat)
    requires Inv(s) && Enabled(s, i) && s.txs[i].pc == Commit && j < |s.txs| && j != i
    ensures var s' := StepTx(s, i);
      && s'.txs[j] == s.txs[j] && Progress(s'.db, s'.txs[j]) && ReadsAreCurrent(s'.db, s'.txs[j])
      && PendingIsNewer(s'.db.entries, s'.nextId, s'.txs[j])
  {
    var tx, s' := s.txs[i], StepTx(s, i);
    CommitIsApply(s, i);
    assert tx.rows.Keys !! s.txs[j].rows.Keys by {
      assert LocksAreExclusive(s.txs);
      if i < j {} else {}
    }
    assert tx.written.Keys <= tx.rows.Keys;
    forall e, c | e in s'.txs[j].appended && c in s'.db.entries && c.walletId == e.walletId
      ensures c.id < e.id
    {
      assert c in s.db.entries || c in tx.appended;
      assert c in tx.appended ==> c.walletId in tx.rows;
    }
  }

  // What a committing transaction appends: entries of wallets it holds, at most one for each.
  lemma AppendedOnce(s: State, i: nat)
    requires Inv(s) && i < |s.txs| && s.txs[i].pc == Commit
    ensures var added := s.txs[i].appended;
      (forall e :: e in added ==>
         e.id < s.nextId && forall c :: c in s.db.entries && c.walletId == e.walletId ==> c.id < e.id)
      && (forall a, b :: 0 <= a < b < |added| ==> added[a].walletId != added[b].walletId)
  {
    hide Sound, Replay, LocksAreExclusive, Ordered, ReadsAreCurrent;
  }

  lemma CommitKeepsOrder(s: State, i: nat)
    requires Inv(s) && Enabled(s, i) && s.txs[i].pc == Commit
    ensures Ordered(StepTx(s, i).db.entries) && IdsIssued(StepTx(s, i).db.entries, s.nextId)
  {
    AppendedOnce(s, i);
    hide Sound, Replay, LocksAreExclusive, ReadsAreCurrent, Progress, PendingIsNewer;
    var es, added := s.db.entries, s.txs[i].appended;
    var es' := StepTx(s, i).db.entries;
    assert es' == es + added;
    forall a, b | |es| <= a < b < |es'| ensures es'[a].walletId != es'[b].walletId {
      assert added[a - |es|].walletId != added[b - |es|].walletId;
    }
    forall a, b | 0 <= a < b < |es'| && es'[a].walletId == es'[b].walletId
      ensures es'[a].id < es'[b].id
    {
      if a < |es| {
        assert es'[a] in es;
        if b >= |es| { assert es'[b] in added; }
      }
    }
    forall e | e in es' ensures e.id < s.nextId {
      assert e in es || e in added;
    }
  }

  lemma FinishedIsIdle(db: Db, nextId: nat, tx: Tx, outcome: Outcome)
    ensures Progress(db, Finish(tx, outcome)) && ReadsAreCurrent(db, Finish(tx, outcome))
    ensures PendingIsNewer(db.entries, nextId, Finish(tx, outcome))
  {}

  lemma InvCommit(s: State, i: nat)
    requires Inv(s) && Enabled(s, i) && s.txs[i].pc == Commit
    ensures Inv(StepTx(s, i))
  {
    hide Apply, Progress, ReadsAreCurrent, PendingIsNewer, Ordered, Sound;
    var tx, s' := s.txs[i], StepTx(s, i);
    CommitIsApply(s, i);
    ApplySound(s.db, tx.op, IdOf(tx, 0), IdOf(tx, 1));
    CommitKeepsOrder(s, i);
    forall j | 0 <= j < |s'.txs|
      ensures Progress(s'.db, s'.txs[j]) && ReadsAreCurrent(s'.db, s'.txs[j])
      ensures PendingIsNewer(s'.db.entries, s'.nextId, s'.txs[j])
    {
      if j == i {
        FinishedIsIdle(s'.db, s'.nextId, tx, Committed);
      } else {
        CommitKeepsOthers(s, i, j);
      }
    }
    forall j, k | 0 <= j < k < |s'.txs| ensures s'.txs[j].rows.Keys !! s'.txs[k].rows.Keys {
      assert s.txs[j].rows.Keys !! s.txs[k].rows.Keys;
    }
    var h := s'.history;
    assert h[..|h| - 1] == s.history;
  }

  lemma InvOpenWallet(s: State, w: nat, user: nat)
    requires Inv(s)
    ensures Inv(Do(s, OpenWallet(w, user)))
  {
    var s' := Do(s, OpenWallet(w, user));
    if s' != s {
      ComputedAbsent(s.db.entries, w);
      var h := s'.history;
      assert h[..|h| - 1] == s.history;
      forall j | 0 <= j < |s'.txs|
        ensures Progress(s'.db, s'.txs[j]) && ReadsAreCurrent(s'.db, s'.txs[j])
      {
        assert s'.txs[j] == s.txs[j];
      }
    }
  }

  lemma InvDo(s: State, e: Event)
    requires Inv(s)
    ensures Inv(Do(s, e))
  {
    match e
    case Spawn(op) =>
      var s' := Do(s, e);
      forall j | 0 <= j < |s'.txs|
        ensures Progress(s'.db, s'.txs[j]) && ReadsAreCurrent(s'.db, s'.txs[j])
        ensures PendingIsNewer(s'.db.entries, s'.nextId, s'.txs[j])
      {
        assert s'.txs[j] == if j < |s.txs| then s.txs[j] else Start(op);
      }
    case Step(i) =>
      if Enabled(s, i) {
        if s.txs[i].pc == Commit { InvCommit(s, i); } else { InvAdvance(s, i); }
      }
    case Crash(i) =>
      var s' := Do(s, e);
      forall j | 0 <= j < |s'.txs|
        ensures Progress(s'.db, s'.txs[j]) && ReadsAreCurrent(s'.db, s'.txs[j])
        ensures PendingIsNewer(s'.db.entries, s'.nextId, s'.txs[j])
      {
        assert j != i ==> s'.txs[j] == s.txs[j];
      }
    case OpenWallet(w, user) => InvOpenWallet(s, w, user);
  }

  // ------------------------------------------------------------------ whole runs

  // The state after a run; the invariant makes every step defined.
  ghost function Run(s: State, events: seq<Event>): State
    requires Inv(s)
    decreases |events|
  {
    if events == [] then s else
      InvDo(s, events[0]);
      Run(Do(s, events[0]), events[1..])
  }

  lemma {:induction false} RunKeepsInv(s: State, events: seq<Event>)
    requires Inv(s)
    ensures Inv(Run(s, events))
    decreases |events|
  {
    hide Inv, Do;
    if events != [] {
      InvDo(s, events[0]);
      RunKeepsInv(Do(s, events[0]), events[1..]);
    }
  }

  lemma InitialInv()
    ensures Inv(INITIAL)
  {}

  // ------------------------------------------------------------------ the history is what committed

  function OpOf(change: Change): multiset<Op> {
    if change.Applied? then multiset{change.op} else multiset{}
  }

  function CommittedOp(tx: Tx): multiset<Op> {
    if tx.pc == Finished(Committed) then multiset{tx.op} else multiset{}
  }

  function AppliedOps(history: seq<Change>): multiset<Op> {
    if history == [] then multiset{} else
      var n := |history| - 1;
      AppliedOps(history[..n]) + OpOf(history[n])
  }

  function CommittedOps(txs: seq<Tx>): multiset<Op> {
    if txs == [] then multiset{} else
      var n := |txs| - 1;
      CommittedOps(txs[..n]) + CommittedOp(txs[n])
  }

  // The n-th committed operation goes through on the state that the ones before it leave.
  ghost predicate GoesThrough(history: seq<Change>, n: nat)
    requires n < |history|
  {
    history[n].Applied? ==> Apply(Replay(history[..n]), history[n].op, history[n].id1, history[n].id2).Success?
  }

  // Every replayed operation goes through, and they are the operations of the committed transactions.
  ghost predicate HistoryOk(s: State) {
    && (forall n: nat :: n < |s.history| ==> GoesThrough(s.history, n))
    && AppliedOps(s.history) == CommittedOps(s.txs)
  }

  lemma {:induction false} CommittedUpdate(txs: seq<Tx>, i: nat, tx: Tx)
    requires i < |txs| && txs[i].pc != Finished(Committed)
    ensures CommittedOps(txs[i := tx]) == CommittedOps(txs) + CommittedOp(tx)
  {
    var n := |txs| - 1;
    if i < n {
      assert txs[i := tx][..n] == txs[..n][i := tx];
      CommittedUpdate(txs[..n], i, tx);
    } else {
      assert txs[i := tx][..n] == txs[..n];
    }
  }

  lemma {:induction false} CommittedPush(txs: seq<Tx>, tx: Tx)
    requires tx.pc != Finished(Committed)
    ensures CommittedOps(txs + [tx]) == CommittedOps(txs)
  {
    assert (txs + [tx])[..|txs|] == txs;
  }

  lemma {:induction false} HistoryPush(s: State, change: Change)
    requires HistoryOk(s) && Replay(s.history) == s.db
    requires change.Applied? ==> Apply(s.db, change.op, change.id1, change.id2).Success?
    ensures var h := s.history + [change];
      && (forall n: nat :: n < |h| ==> GoesThrough(h, n))
      && AppliedOps(h) == AppliedOps(s.history) + OpOf(change)
  {
    hide Apply, Replay;
    var h := s.history + [change];
    assert h[..|s.history|] == s.history;
    forall n: nat | n < |h| ensures GoesThrough(h, n) {
      if n < |s.history| {
        assert h[..n] == s.history[..n] && GoesThrough(s.history, n);
      }
    }
  }

  lemma StepKeepsHistory(s: State, i: nat)
    requires Inv(s) && Enabled(s, i) && HistoryOk(s)
    ensures HistoryOk(StepTx(s, i))
  {
    var tx, s' := s.txs[i], StepTx(s, i);
    if tx.pc == Commit {
      CommitIsApply(s, i);
      HistoryPush(s, Applied(tx.op, IdOf(tx, 0), IdOf(tx, 1)));
      CommittedUpdate(s.txs, i, Finish(tx, Committed));
    } else {
      hide Inv, HistoryOk;
      AdvanceCommitsNothing(s, i);
      CommittedUpdate(s.txs, i, s'.txs[i]);
      SameHistory(s, s');
    }
  }

  lemma AdvanceCommitsNothing(s: State, i: nat)
    requires Inv(s) && Enabled(s, i) && s.txs[i].pc != Commit
    ensures var s' := StepTx(s, i);
      && s'.history == s.history && |s'.txs| == |s.txs| && s'.txs == s.txs[i := s'.txs[i]]
      && s'.txs[i].pc != Finished(Committed)
  {
    hide Sound, Replay, PendingIsNewer, LocksAreExclusive, Ordered, ReadsAreCurrent;
  }

  lemma SameHistory(s: State, s': State)
    requires HistoryOk(s) && s'.history == s.history && CommittedOps(s'.txs) == CommittedOps(s.txs)
    ensures HistoryOk(s')
  {}

  lemma HistoryStep(s: State, e: Event)
    requires Inv(s) && HistoryOk(s)
    ensures HistoryOk(Do(s, e))
  {
    hide HistoryOk;
    match e
    case Spawn(op) => CommittedPush(s.txs, Start(op)); SameHistory(s, Do(s, e));
    case Step(i) => if Enabled(s, i) { StepKeepsHistory(s, i); }
    case Crash(i) =>
      if i < |s.txs| && !s.txs[i].pc.Finished? { CommittedUpdate(s.txs, i, Finish(s.txs[i], Crashed)); }
      SameHistory(s, Do(s, e));
    case OpenWallet(w, user) => OpeningKeepsHistory(s, w, user);
  }

  lemma {:induction false} OpeningKeepsHistory(s: State, w: nat, user: nat)
    requires Inv(s) && HistoryOk(s)
    ensures HistoryOk(Do(s, OpenWallet(w, user)))
  {
    HistoryPush(s, Opened(w, user));
  }

  lemma {:induction false} HistoryKept(s: State, events: seq<Event>)
    requires Inv(s) && HistoryOk(s)
    ensures HistoryOk(Run(s, events))
    decreases |events|
  {
    hide Inv, Do, HistoryOk;
    if events != [] {
      InvDo(s, events[0]);
      HistoryStep(s, events[0]);
      HistoryKept(Do(s, events[0]), events[1..]);
    }
  }

  // Whatever the interleaving and the crashes, every committed balance is the signed sum of the
  // wallet's committed entries and never negative, and the committed state is the one that the
  // operations of exactly the committed transactions reach when run one at a time in commit order,
  // none of them refused.
  lemma {:induction false} LedgerTheorem(events: seq<Event>)
    ensures Inv(INITIAL)
    ensures var s := Run(INITIAL, events);
      && (forall w :: w in s.db.wallets ==> 0 <= s.db.wallets[w].balance == Computed(s.db.entries, w))
      && s.db == Replay(s.history) && HistoryOk(s)
  {
    InitialInv();
    RunKeepsInv(INITIAL, events);
    HistoryKept(INITIAL, events);
  }
}
