/** Wallets with a stored balance, the append-only ledger, and the services that move money. */
module Ledger {
  import opened Common
  import opened Sums

  datatype Kind = CREDIT | DEBIT

  // The reference strings the core writes, and any text another caller may pass.
  datatype Reference =
    | NoReference
    | PaymentRef(id: nat)
    | RefundRef(id: nat)
    | PayoutRef(id: nat)
    | PayoutRejectedRef(id: nat)
    | PayoutCancelledRef(id: nat)
    | CallerRef(text: string)

  datatype Entry =
    Entry(id: nat, walletId: nat, userId: nat, kind: Kind, amount: int, reference: Reference)

  datatype Wallet = Wallet(userId: nat, balance: int)

  datatype Db = Db(wallets: map<nat, Wallet>, entries: seq<Entry>)

  datatype LedgerError = VALIDATION_ERROR | NOT_FOUND | INSUFFICIENT_FUNDS | BALANCE_MISMATCH

  datatype Op =
    | Credit(walletId: nat, amount: int, reference: Reference)
    | Debit(walletId: nat, amount: int, reference: Reference)
    | Transfer(fromId: nat, toId: nat, amount: int, reference: Reference)

  // ------------------------------------------------------------------ balances

  function Signed(e: Entry): int {
    if e.kind == CREDIT then e.amount else -e.amount
  }

  // The balance the ledger itself implies: the signed sum of the wallet's entries.
  function Computed(entries: seq<Entry>, w: nat): int {
    if entries == [] then 0 else
      var n := |entries| - 1;
      Computed(entries[..n], w) + (if entries[n].walletId == w then Signed(entries[n]) else 0)
  }

  lemma {:induction false} ComputedConcat(a: seq<Entry>, b: seq<Entry>, w: nat)
    ensures Computed(a + b, w) == Computed(a, w) + Computed(b, w)
  {
    if b == [] {
      assert a + b == a;
    } else {
      var n := |b| - 1;
      assert (a + b)[..|a| + n] == a + b[..n];
      ComputedConcat(a, b[..n], w);
    }
  }

  ghost predicate OneWalletPerUser(wallets: map<nat, Wallet>) {
    forall v, w :: v in wallets && w in wallets && wallets[v].userId == wallets[w].userId ==> v == w
  }

  // What every committed state keeps: no drift, no overdraft, and entries that name real owners.
  ghost predicate Sound(db: Db) {
    && OneWalletPerUser(db.wallets)
    && (forall w :: w in db.wallets ==> 0 <= db.wallets[w].balance == Computed(db.entries, w))
    && (forall e :: e in db.entries ==>
          0 < e.amount && e.walletId in db.wallets && db.wallets[e.walletId].userId == e.userId)
  }

  ghost function Total(db: Db): int {
    SumMap(map w | w in db.wallets :: db.wallets[w].balance)
  }

  // ------------------------------------------------------------------ one movement

  // Append one entry and overwrite the stored balance with the sum the caller read and moved.
  function Post(db: Db, w: nat, kind: Kind, amount: int, reference: Reference, id: nat): Db
    requires w in db.wallets
  {
    var row := db.wallets[w];
    var e := Entry(id, w, row.userId, kind, amount, reference);
    Db(db.wallets[w := row.(balance := row.balance + Signed(e))], db.entries + [e])
  }

  lemma PostSound(db: Db, w: nat, kind: Kind, amount: int, reference: Reference, id: nat)
    requires Sound(db) && w in db.wallets && 0 < amount
    requires kind == DEBIT ==> amount <= db.wallets[w].balance
    ensures Sound(Post(db, w, kind, amount, reference, id))
  {
    var db' := Post(db, w, kind, amount, reference, id);
    var n := |db.entries|;
    assert db'.entries[..n] == db.entries;
    forall v | v in db'.wallets
      ensures 0 <= db'.wallets[v].balance == Computed(db'.entries, v)
    {
      assert v in db.wallets;
    }
    forall e | e in db'.entries
      ensures 0 < e.amount && e.walletId in db'.wallets && db'.wallets[e.walletId].userId == e.userId
    {
      assert e == db'.entries[n] || e in db.entries;
    }
  }

  lemma PostTotal(db: Db, w: nat, kind: Kind, amount: int, reference: Reference, id: nat)
    requires w in db.wallets
    ensures Total(Post(db, w, kind, amount, reference, id))
         == Total(db) + (if kind == CREDIT then amount else -amount)
  {
    var db' := Post(db, w, kind, amount, reference, id);
    var before := map v | v in db.wallets :: db.wallets[v].balance;
    var after := map v | v in db'.wallets :: db'.wallets[v].balance;
    assert after == before[w := db'.wallets[w].balance];
    SumPut(before, w, db'.wallets[w].balance);
  }

  // ------------------------------------------------------------------ whole operations

  // What credit, debit and transfer do when nothing runs beside them; the ids are the ones the
  // entry sequence hands out.
  function Apply(db: Db, op: Op, id1: nat, id2: nat): Result<Db, LedgerError> {
    match op
    case Credit(w, amount, reference) =>
      if amount <= 0 then Failure(VALIDATION_ERROR)
      else if w !in db.wallets then Failure(NOT_FOUND)
      else Success(Post(db, w, CREDIT, amount, reference, id1))
    case Debit(w, amount, reference) =>
      if amount <= 0 then Failure(VALIDATION_ERROR)
      else if w !in db.wallets then Failure(NOT_FOUND)
      else if db.wallets[w].balance < amount then Failure(INSUFFICIENT_FUNDS)
      else Success(Post(db, w, DEBIT, amount, reference, id1))
    case Transfer(v, w, amount, reference) =>
      if amount <= 0 || v == w then Failure(VALIDATION_ERROR)
      else if v !in db.wallets || w !in db.wallets then Failure(NOT_FOUND)
      else if db.wallets[v].balance < amount then Failure(INSUFFICIENT_FUNDS)
      else Success(Post(Post(db, v, DEBIT, amount, reference, id1), w, CREDIT, amount, reference, id2))
  }

  // What an operation adds to a wallet's balance.
  function MovedBy(op: Op, w: nat): int {
    match op
    case Credit(v, amount, _) => if w == v then amount else 0
    case Debit(v, amount, _) => if w == v then -amount else 0
    case Transfer(v, u, amount, _) => (if w == u then amount else 0) - (if w == v then amount else 0)
  }

  // An operation goes through exactly when its amount is positive, its wallets are there, for a
  // transfer two different ones, and the one that pays holds the amount; the first failing check is
  // the answer. Then each wallet's balance moves by the amount, and no other wallet is touched.
  lemma ApplyExactly(db: Db, op: Op, id1: nat, id2: nat)
    ensures var r, ws := Apply(db, op, id1, id2), db.wallets;
      var payer, payee := if op.Transfer? then op.fromId else op.walletId, if op.Transfer? then op.toId else op.walletId;
      var there, covered := payer in ws && payee in ws, op.Credit? || (payer in ws && op.amount <= ws[payer].balance);
      && (r.Success? <==> 0 < op.amount && (op.Transfer? ==> payer != payee) && there && covered)
      && (r.Failure? ==> r.error == (if op.amount <= 0 || (op.Transfer? && payer == payee) then VALIDATION_ERROR
                                     else if !there then NOT_FOUND else INSUFFICIENT_FUNDS))
      && (r.Success? ==>
            && r.value.wallets.Keys == ws.Keys
            && (forall w :: w in ws ==> r.value.wallets[w] == ws[w].(balance := ws[w].balance + MovedBy(op, w)))
            && |r.value.entries| == |db.entries| + (if op.Transfer? then 2 else 1) && db.entries <= r.value.entries)
  {}

  lemma ApplySound(db: Db, op: Op, id1: nat, id2: nat)
    requires Sound(db)
    ensures Apply(db, op, id1, id2).Success? ==> Sound(Apply(db, op, id1, id2).value)
  {
    if Apply(db, op, id1, id2).Success? {
      match op
      case Credit(w, amount, reference) => PostSound(db, w, CREDIT, amount, reference, id1);
      case Debit(w, amount, reference) => PostSound(db, w, DEBIT, amount, reference, id1);
      case Transfer(v, w, amount, reference) =>
        PostSound(db, v, DEBIT, amount, reference, id1);
        PostSound(Post(db, v, DEBIT, amount, reference, id1), w, CREDIT, amount, reference, id2);
    }
  }

  // Money is created by credit, destroyed by debit, and only moved by transfer.
  lemma ApplyTotal(db: Db, op: Op, id1: nat, id2: nat)
    requires Apply(db, op, id1, id2).Success?
    ensures Total(Apply(db, op, id1, id2).value)
         == Total(db) + (if op.Credit? then op.amount else if op.Debit? then -op.amount else 0)
  {
    match op
    case Credit(w, amount, reference) => PostTotal(db, w, CREDIT, amount, reference, id1);
    case Debit(w, amount, reference) => PostTotal(db, w, DEBIT, amount, reference, id1);
    case Transfer(v, w, amount, reference) =>
      PostTotal(db, v, DEBIT, amount, reference, id1);
      PostTotal(Post(db, v, DEBIT, amount, reference, id1), w, CREDIT, amount, reference, id2);
  }

  // ------------------------------------------------------------------ wallets

  ghost predicate FreshWalletId(wallets: map<nat, Wallet>, next: nat) {
    forall w :: w in wallets ==> w < next
  }

  function OwnedBy(wallets: map<nat, Wallet>, userId: nat): (r: Option<nat>)
    requires OneWalletPerUser(wallets)
    ensures r.Some? ==> r.value in wallets && wallets[r.value].userId == userId
    ensures r.None? ==> forall w :: w in wallets ==> wallets[w].userId != userId
  {
    if exists w :: w in wallets && wallets[w].userId == userId then
      var w :| w in wallets && wallets[w].userId == userId;
      Some(w)
    else None
  }

  // The row findOrCreateForUser returns, and the table it leaves.
  function FindOrCreate(wallets: map<nat, Wallet>, userId: nat, next: nat): (r: (nat, map<nat, Wallet>))
    requires OneWalletPerUser(wallets) && FreshWalletId(wallets, next)
    ensures r.0 in r.1 && r.1[r.0].userId == userId && OneWalletPerUser(r.1)
    ensures forall w :: w in wallets ==> w in r.1 && r.1[w] == wallets[w]
    ensures r.1 == wallets || (r.0 == next && r.1 == wallets[next := Wallet(userId, 0)])
  {
    match OwnedBy(wallets, userId)
    case Some(w) => (w, wallets)
    case None => (next, wallets[next := Wallet(userId, 0)])
  }

  lemma ComputedAbsent(entries: seq<Entry>, w: nat)
    requires forall e :: e in entries ==> e.walletId != w
    ensures Computed(entries, w) == 0
  {}

  lemma OpeningKeepsTotal(db: Db, userId: nat, next: nat)
    requires OneWalletPerUser(db.wallets) && FreshWalletId(db.wallets, next)
    ensures Total(db.(wallets := FindOrCreate(db.wallets, userId, next).1)) == Total(db)
  {
    var db' := db.(wallets := FindOrCreate(db.wallets, userId, next).1);
    if db' != db {
      assert next !in db.wallets;
      var before := map v | v in db.wallets :: db.wallets[v].balance;
      var after := map v | v in db'.wallets :: db'.wallets[v].balance;
      assert after == before[next := 0];
      SumPut(before, next, 0);
    }
  }

  lemma OpeningKeepsSound(db: Db, userId: nat, next: nat)
    requires Sound(db) && FreshWalletId(db.wallets, next)
    ensures Sound(db.(wallets := FindOrCreate(db.wallets, userId, next).1))
    ensures Total(db.(wallets := FindOrCreate(db.wallets, userId, next).1)) == Total(db)
  {
    OpeningKeepsTotal(db, userId, next);
    if FindOrCreate(db.wallets, userId, next).1 != db.wallets {
      assert next !in db.wallets;
      ComputedAbsent(db.entries, next);
    }
  }

  // ------------------------------------------------------------------ references

  predicate HasEntry(entries: seq<Entry>, reference: Reference) {
    exists k :: 0 <= k < |entries| && entries[k].reference == reference
  }

  // How many entries carry a reference.
  function Count(entries: seq<Entry>, reference: Reference): nat {
    if entries == [] then 0 else
      var n := |entries| - 1;
      Count(entries[..n], reference) + (if entries[n].reference == reference then 1 else 0)
  }

  lemma {:induction false} CountConcat(a: seq<Entry>, b: seq<Entry>, r: Reference)
    ensures Count(a + b, r) == Count(a, r) + Count(b, r)
  {
    if b == [] {
      assert a + b == a;
    } else {
      var n := |b| - 1;
      assert (a + b)[..|a| + n] == a + b[..n];
      CountConcat(a, b[..n], r);
    }
  }

  lemma CountPush(entries: seq<Entry>, e: Entry, r: Reference)
    ensures Count(entries + [e], r) == Count(entries, r) + (if e.reference == r then 1 else 0)
  {
    assert (entries + [e])[..|entries|] == entries;
  }

  lemma CountNone(entries: seq<Entry>, r: Reference)
    ensures Count(entries, r) == 0 <==> !HasEntry(entries, r)
  {
    if entries != [] {
      var n := |entries| - 1;
      CountNone(entries[..n], r);
      if HasEntry(entries[..n], r) {
        var k :| 0 <= k < n && entries[..n][k].reference == r;
        assert entries[k].reference == r;
      }
    }
  }

  // ------------------------------------------------------------------ the services

  /** The two tables and their id sequences. */
  class LedgerTables {
    var wallets: map<nat, Wallet>
    var entries: seq<Entry>
    var nextWalletId: nat
    var nextEntryId: nat

    constructor ()
      ensures Valid() && Contents() == Db(map[], []) && nextWalletId == 1 && nextEntryId == 1
    {
      wallets, entries, nextWalletId, nextEntryId := map[], [], 1, 1;
    }

    function Contents(): Db
      reads this
    {
      Db(wallets, entries)
    }

    ghost predicate Valid()
      reads this
    {
      Sound(Contents()) && FreshWalletId(wallets, nextWalletId)
    }
  }

  class WalletsService {
    const tables: LedgerTables

    constructor (tables: LedgerTables)
      ensures this.tables == tables
    {
      this.tables := tables;
    }

    method FindOrCreateForUser(userId: nat) returns (walletId: nat)
      requires tables.Valid()
      modifies tables`wallets, tables`nextWalletId
      ensures tables.Valid()
      ensures (walletId, tables.wallets)
           == FindOrCreate(old(tables.wallets), userId, old(tables.nextWalletId))
      ensures tables.nextWalletId
           == old(tables.nextWalletId) + (if tables.wallets == old(tables.wallets) then 0 else 1)
    {
      OpeningKeepsSound(tables.Contents(), userId, tables.nextWalletId);
      var found := OwnedBy(tables.wallets, userId);
      if found.Some? {
        walletId := found.value;
      } else {
        walletId := tables.nextWalletId;
        assert walletId !in tables.wallets;
        tables.wallets := tables.wallets[walletId := Wallet(userId, 0)];
        tables.nextWalletId := walletId + 1;
      }
    }

    method FindByUserId(userId: nat) returns (r: Result<nat, LedgerError>)
      requires tables.Valid()
      ensures r.Success? ==> r.value in tables.wallets && tables.wallets[r.value].userId == userId
      ensures r == match OwnedBy(tables.wallets, userId) case Some(w) => Success(w) case None => Failure(NOT_FOUND)
    {
      var found := OwnedBy(tables.wallets, userId);
      r := if found.Some? then Success(found.value) else Failure(NOT_FOUND);
    }
  }

  class LedgerService {
    const tables: LedgerTables

    constructor (tables: LedgerTables)
      ensures this.tables == tables
    {
      this.tables := tables;
    }

    method CreateEntry(w: nat, kind: Kind, amount: int, reference: Reference) returns (e: Entry)
      requires w in tables.wallets
      modifies tables`entries, tables`nextEntryId
      ensures e == Entry(old(tables.nextEntryId), w, tables.wallets[w].userId, kind, amount, reference)
      ensures tables.entries == old(tables.entries) + [e] && tables.nextEntryId == old(tables.nextEntryId) + 1
    {
      e := Entry(tables.nextEntryId, w, tables.wallets[w].userId, kind, amount, reference);
      tables.entries := tables.entries + [e];
      tables.nextEntryId := tables.nextEntryId + 1;
    }

    method UpdateBalance(w: nat, balance: int)
      requires w in tables.wallets
      modifies tables`wallets
      ensures tables.wallets == old(tables.wallets)[w := old(tables.wallets)[w].(balance := balance)]
    {
      tables.wallets := tables.wallets[w := tables.wallets[w].(balance := balance)];
    }

    method Credit(walletId: nat, amount: int, reference: Reference) returns (r: Result<Entry, LedgerError>)
      requires tables.Valid()
      modifies tables`wallets, tables`entries, tables`nextEntryId
      ensures tables.Valid()
      ensures match Apply(old(tables.Contents()), Op.Credit(walletId, amount, reference), old(tables.nextEntryId), 0)
              case Success(db) => tables.Contents() == db && r == Success(db.entries[|db.entries| - 1])
                               && tables.nextEntryId == old(tables.nextEntryId) + 1
              case Failure(e) => unchanged(tables) && r == Failure(e)
    {
      ghost var before, id := tables.Contents(), tables.nextEntryId;
      ApplySound(before, Op.Credit(walletId, amount, reference), id, 0);
      if amount <= 0 { return Failure(VALIDATION_ERROR); }
      if walletId !in tables.wallets { return Failure(NOT_FOUND); }
      var nb := tables.wallets[walletId].balance + amount;
      var e := CreateEntry(walletId, CREDIT, amount, reference);
      UpdateBalance(walletId, nb);
      r := Success(e);
    }

    method Debit(walletId: nat, amount: int, reference: Reference) returns (r: Result<Entry, LedgerError>)
      requires tables.Valid()
      modifies tables`wallets, tables`entries, tables`nextEntryId
      ensures tables.Valid()
      ensures match Apply(old(tables.Contents()), Op.Debit(walletId, amount, reference), old(tables.nextEntryId), 0)
              case Success(db) => tables.Contents() == db && r == Success(db.entries[|db.entries| - 1])
                               && tables.nextEntryId == old(tables.nextEntryId) + 1
              case Failure(e) => unchanged(tables) && r == Failure(e)
    {
      ghost var before, id := tables.Contents(), tables.nextEntryId;
      ApplySound(before, Op.Debit(walletId, amount, reference), id, 0);
      if amount <= 0 { return Failure(VALIDATION_ERROR); }
      if walletId !in tables.wallets { return Failure(NOT_FOUND); }
      var nb := tables.wallets[walletId].balance - amount;
      if nb < 0 { return Failure(INSUFFICIENT_FUNDS); }
      var e := CreateEntry(walletId, DEBIT, amount, reference);
      UpdateBalance(walletId, nb);
      r := Success(e);
    }

    method Transfer(fromId: nat, toId: nat, amount: int, reference: Reference)
      returns (r: Result<(Entry, Entry), LedgerError>)
      requires tables.Valid()
      modifies tables`wallets, tables`entries, tables`nextEntryId
      ensures tables.Valid()
      ensures match Apply(old(tables.Contents()), Op.Transfer(fromId, toId, amount, reference),
                          old(tables.nextEntryId), old(tables.nextEntryId) + 1)
              case Success(db) =>
                && tables.Contents() == db && tables.nextEntryId == old(tables.nextEntryId) + 2
                && r == Success((db.entries[|db.entries| - 2], db.entries[|db.entries| - 1]))
              case Failure(e) => unchanged(tables) && r == Failure(e)
    {
      hide Sound, Computed;
      ghost var before, id := tables.Contents(), tables.nextEntryId;
      if amount <= 0 { return Failure(VALIDATION_ERROR); }
      if fromId == toId { return Failure(VALIDATION_ERROR); }
      var firstId, secondId := if fromId < toId then fromId else toId, if fromId < toId then toId else fromId;
      if firstId !in tables.wallets { return Failure(NOT_FOUND); }
      if secondId !in tables.wallets { return Failure(NOT_FOUND); }
      var nfb := tables.wallets[fromId].balance - amount;
      if nfb < 0 { return Failure(INSUFFICIENT_FUNDS); }
      ApplySound(before, Op.Transfer(fromId, toId, amount, reference), id, id + 1);
      var de, ce := MoveBetween(fromId, toId, amount, reference);
      r := Success((de, ce));
    }

    // The four writes of a transfer, once both rows are locked and the funds are there.
    method MoveBetween(fromId: nat, toId: nat, amount: int, reference: Reference) returns (de: Entry, ce: Entry)
      requires fromId in tables.wallets && toId in tables.wallets && fromId != toId
      modifies tables`wallets, tables`entries, tables`nextEntryId
      ensures tables.Contents()
           == Post(Post(old(tables.Contents()), fromId, DEBIT, amount, reference, old(tables.nextEntryId)),
                   toId, CREDIT, amount, reference, old(tables.nextEntryId) + 1)
      ensures tables.nextEntryId == old(tables.nextEntryId) + 2
      ensures tables.entries == old(tables.entries) + [de, ce]
    {
      var fromRow, toRow := tables.wallets[fromId], tables.wallets[toId];
      de := CreateEntry(fromId, DEBIT, amount, reference);
      UpdateBalance(fromId, fromRow.balance - amount);
      ce := CreateEntry(toId, CREDIT, amount, reference);
      UpdateBalance(toId, toRow.balance + amount);
    }
  }

  // ------------------------------------------------------------------ reconciliation

  datatype Drift = OK | DRIFT

  datatype ReportRow = ReportRow(walletId: nat, userId: nat, stored: int, computed: int, drift: int, status: Drift)

  datatype Report =
    Report(items: seq<ReportRow>, walletsWithDrift: nat, totalStored: int, totalComputed: int, cappedAt: Option<nat>)

  const REPORT_CAP: nat := 10000

  // The two sums the report's summary folds over its rows.
  function SumStored(rows: seq<ReportRow>): int {
    if rows == [] then 0 else SumStored(rows[..|rows| - 1]) + rows[|rows| - 1].stored
  }

  function SumComputed(rows: seq<ReportRow>): int {
    if rows == [] then 0 else SumComputed(rows[..|rows| - 1]) + rows[|rows| - 1].computed
  }

  function Drifting(rows: seq<ReportRow>): seq<ReportRow> {
    if rows == [] then [] else
      var n := |rows| - 1;
      Drifting(rows[..n]) + (if rows[n].status == DRIFT then [rows[n]] else [])
  }

  function RowFor(db: Db, w: nat): ReportRow
    requires w in db.wallets
  {
    var drift := db.wallets[w].balance - Computed(db.entries, w);
    ReportRow(w, db.wallets[w].userId, db.wallets[w].balance, Computed(db.entries, w), drift,
              if drift == 0 then OK else DRIFT)
  }

  function Rows(db: Db, shown: seq<nat>): (rows: seq<ReportRow>)
    requires forall w :: w in shown ==> w in db.wallets
    ensures |rows| == |shown| && forall i :: 0 <= i < |rows| ==> rows[i] == RowFor(db, shown[i])
  {
    seq(|shown|, i requires 0 <= i < |shown| => RowFor(db, shown[i]))
  }

  // order is the order in which the database returns the grouped wallets; one statement reads
  // both tables, so the whole report sees one committed state.
  function ReconciliationReport(db: Db, order: seq<nat>, limit: Option<nat>): Report
    requires forall w :: w in order ==> w in db.wallets
  {
    var asked := if limit.Some? then limit.value else REPORT_CAP;
    var cap := if asked < REPORT_CAP then asked else REPORT_CAP;
    var exceeded := |order| > cap;
    var shown := if exceeded then order[..cap] else order;
    var items := Rows(db, shown);
    Report(items, |Drifting(items)|, SumStored(items), SumComputed(items), if exceeded then Some(cap) else None)
  }

  lemma CleanRows(rows: seq<ReportRow>)
    requires forall r :: r in rows ==> r.drift == 0 && r.status == OK && r.stored == r.computed
    ensures Drifting(rows) == [] && SumStored(rows) == SumComputed(rows)
  {
    if rows != [] {
      var n := |rows| - 1;
      assert rows[n] in rows;
      CleanRows(rows[..n]);
    }
  }

  // On a sound state no row drifts, whichever wallets the cap lets through.
  lemma ReportIsClean(db: Db, order: seq<nat>, limit: Option<nat>)
    requires Sound(db) && forall w :: w in order ==> w in db.wallets
    ensures var r := ReconciliationReport(db, order, limit);
      && r.walletsWithDrift == 0 && r.totalStored == r.totalComputed
      && (forall row :: row in r.items ==> row.drift == 0 && row.status == OK && 0 <= row.stored)
  {
    CleanRows(ReconciliationReport(db, order, limit).items);
  }

  // A tampered balance cannot hide from an uncapped report.
  lemma {:induction false} ReportFindsDrift(db: Db, order: seq<nat>, w: nat)
    requires w in order && |order| <= REPORT_CAP && forall v :: v in order ==> v in db.wallets
    requires db.wallets[w].balance != Computed(db.entries, w)
    ensures 0 < ReconciliationReport(db, order, None).walletsWithDrift
  {
    var items := ReconciliationReport(db, order, None).items;
    var i :| 0 <= i < |order| && order[i] == w;
    DriftKept(items, i);
  }

  lemma {:induction false} DriftKept(rows: seq<ReportRow>, i: nat)
    requires i < |rows| && rows[i].status == DRIFT
    ensures Drifting(rows) != []
  {
    var n := |rows| - 1;
    if i < n {
      DriftKept(rows[..n], i);
    }
  }

  function SumDrift(rows: seq<ReportRow>): int {
    if rows == [] then 0 else SumDrift(rows[..|rows| - 1]) + rows[|rows| - 1].drift
  }

  ghost predicate Distinct(order: seq<nat>) {
    forall i, j :: 0 <= i < j < |order| ==> order[i] != order[j]
  }

  ghost function DriftingOf(db: Db, order: seq<nat>): set<nat>
    requires forall w :: w in order ==> w in db.wallets
  {
    set w | w in order && db.wallets[w].balance != Computed(db.entries, w)
  }

  ghost function Balances(db: Db, order: seq<nat>): map<nat, int>
    requires forall w :: w in order ==> w in db.wallets
  {
    map w | w in order :: db.wallets[w].balance
  }

  ghost function Implied(db: Db, order: seq<nat>): map<nat, int> {
    map w | w in order :: Computed(db.entries, w)
  }

  lemma MapsPush(db: Db, before: seq<nat>, w: nat)
    requires forall v :: v in before + [w] ==> v in db.wallets
    ensures forall v :: v in before ==> v in before + [w]
    ensures Balances(db, before + [w]) == Balances(db, before)[w := db.wallets[w].balance]
    ensures Implied(db, before + [w]) == Implied(db, before)[w := Computed(db.entries, w)]
    ensures DriftingOf(db, before + [w])
         == DriftingOf(db, before) + (if db.wallets[w].balance != Computed(db.entries, w) then {w} else {})
  {
    hide Computed;
  }

  lemma SumsPush(rows: seq<ReportRow>, row: ReportRow)
    ensures SumStored(rows + [row]) == SumStored(rows) + row.stored
    ensures SumComputed(rows + [row]) == SumComputed(rows) + row.computed
    ensures SumDrift(rows + [row]) == SumDrift(rows) + row.drift
    ensures Drifting(rows + [row]) == Drifting(rows) + (if row.status == DRIFT then [row] else [])
  {
    assert (rows + [row])[..|rows|] == rows;
  }

  lemma NotYet(db: Db, order: seq<nat>, w: nat)
    requires w !in order && forall v :: v in order ==> v in db.wallets
    ensures w !in Balances(db, order) && w !in Implied(db, order) && w !in DriftingOf(db, order)
  {}

  // The totals of some wallets' rows: their balances, what their entries imply, and the difference.
  ghost predicate TotalsMatch(db: Db, order: seq<nat>, rows: seq<ReportRow>)
    requires forall w :: w in order ==> w in db.wallets
  {
    && SumStored(rows) == SumMap(Balances(db, order)) && SumComputed(rows) == SumMap(Implied(db, order))
    && SumDrift(rows) == SumStored(rows) - SumComputed(rows) && |Drifting(rows)| == |DriftingOf(db, order)|
  }

  lemma TotalsMatchPush(db: Db, before: seq<nat>, w: nat, rows: seq<ReportRow>)
    requires (forall v :: v in before + [w] ==> v in db.wallets) && w !in before
    requires (forall v :: v in before ==> v in db.wallets) && TotalsMatch(db, before, rows)
    ensures w in db.wallets && TotalsMatch(db, before + [w], rows + [RowFor(db, w)])
  {
    hide Computed, SumStored, SumComputed, SumDrift, Drifting, Balances, Implied, DriftingOf, SumMap;
    assert w in before + [w];
    SumsPush(rows, RowFor(db, w));
    MapsPush(db, before, w);
    NotYet(db, before, w);
    SumPut(Balances(db, before), w, db.wallets[w].balance);
    SumPut(Implied(db, before), w, Computed(db.entries, w));
  }

  lemma NoRows(db: Db)
    ensures TotalsMatch(db, [], [])
  {
    assert Balances(db, []) == map[] && Implied(db, []) == map[] && DriftingOf(db, []) == {};
  }

  lemma {:induction false} TotalsOfRows(db: Db, order: seq<nat>)
    requires Distinct(order) && forall w :: w in order ==> w in db.wallets
    ensures TotalsMatch(db, order, Rows(db, order))
  {
    hide RowFor, TotalsMatch, Computed, SumMap;
    if order == [] {
      NoRows(db);
    } else {
      var n := |order| - 1;
      var before, w := order[..n], order[n];
      assert order == before + [w] && w !in before;
      TotalsOfRows(db, before);
      TotalsMatchPush(db, before, w, Rows(db, before));
      assert Rows(db, order) == Rows(db, before) + [RowFor(db, w)];
    }
  }

  // Whatever the tables hold: the report shows the first wallets up to the cap, says so exactly when
  // some are left out, counts exactly the drifting ones it shows, and its totals differ by the sum of
  // the drifts.
  lemma ReportExactly(db: Db, order: seq<nat>, limit: Option<nat>)
    requires Distinct(order) && forall w :: w in order ==> w in db.wallets
    ensures var r := ReconciliationReport(db, order, limit);
      var cap := if limit.Some? && limit.value < 10000 then limit.value else 10000;
      var shown := if |order| <= cap then order else order[..cap];
      && r.cappedAt == (if |order| <= cap then None else Some(cap))
      && |r.items| == |shown| && (forall i :: 0 <= i < |shown| ==> r.items[i].walletId == shown[i])
      && r.walletsWithDrift == |DriftingOf(db, shown)|
      && r.totalStored == SumMap(Balances(db, shown)) && r.totalComputed == SumMap(Implied(db, shown))
      && SumDrift(r.items) == r.totalStored - r.totalComputed
  {
    hide Computed, Drifting, SumStored, SumComputed, SumDrift;
    var cap: nat := if limit.Some? && limit.value < 10000 then limit.value else 10000;
    var shown := if |order| <= cap then order else order[..cap];
    TotalsOfRows(db, shown);
  }
}
