/** Whose word a payment's status and credit rest on: over every interleaving, a callback that carried
    the reference the provider gave the payment. */
module CallbackAuthority {
  import opened Common
  import opened PaymentTypes
  import L = Ledger
  import LM = LedgerMachine
  import opened CallbackMachine

  ghost function After(events: seq<Event>): State {
    if Inv(INITIAL) then Run(INITIAL, events) else INITIAL
  }

  lemma {:induction false} RunPush(s: State, events: seq<Event>, e: Event)
    requires Inv(s)
    ensures Inv(Run(s, events)) && LM.Inv(Run(s, events).ledger)
    ensures Run(s, events + [e]) == Do(Run(s, events), e)
    decreases |events|
  {
    hide Inv, Do;
    RunKeepsInv(s, events);
    LedgerKept(s);
    LedgerKept(Run(s, events));
    InvDo(s, e);
    if events == [] {
      assert [] + [e] == [e] && [e][1..] == [];
      assert Run(Do(s, e), []) == Do(s, e);
    } else {
      InvDo(s, events[0]);
      RunPush(Do(s, events[0]), events[1..], e);
      assert (events + [e])[1..] == events[1..] + [e];
    }
  }

  lemma LedgerKept(s: State)
    requires Inv(s)
    ensures LM.Inv(s.ledger)
  {}

  // The callback's reference is the one its payment was given.
  ghost predicate Carries(s: State, p: Proc) {
    p.paymentId in s.payments && s.payments[p.paymentId].providerReference == Some(p.providerReference)
  }

  ghost predicate Arrived(events: seq<Event>, p: Proc) {
    exists k :: 0 <= k < |events| && events[k] == Arrive(p.paymentId, p.providerReference, p.ok)
  }

  // The provider was asked about callback i and answered so.
  ghost predicate Asked(events: seq<Event>, i: nat, verified: bool) {
    exists k :: 0 <= k < |events| && AskedAt(events, k, i, verified)
  }

  ghost predicate AskedAt(events: seq<Event>, k: nat, i: nat, verified: bool)
    requires k < |events|
  {
    && events[k].Step? && events[k].i == i && events[k].verified == verified
    && i < |After(events[..k]).procs| && After(events[..k]).procs[i].pc == Verifying
  }

  predicate Confirmed(pc: Pc) {
    pc.LockingRow? || pc.Reconciling? || pc.OpeningWallet? || pc.Crediting? || pc.Committing?
  }

  // What a callback has behind it where it stands.
  ghost predicate Backed(s: State, events: seq<Event>, i: nat)
    requires i < |s.procs|
  {
    var p := s.procs[i];
    && Arrived(events, p)
    && (p.pc != Start && p.pc != Ended ==> Carries(s, p) && (p.ok <==> p.pc != Cancelling))
    && (Confirmed(p.pc) ==> Asked(events, i, true))
    && (p.pc == Failing ==> Asked(events, i, false))
  }

  // A callback that came back well with the payment's reference, and the provider's answer about it.
  ghost predicate Vouched(s: State, events: seq<Event>, id: nat, verified: bool) {
    exists i :: 0 <= i < |s.procs| && Vouches(s, events, i, id, verified)
  }

  ghost predicate Vouches(s: State, events: seq<Event>, i: nat, id: nat, verified: bool)
    requires i < |s.procs|
  {
    s.procs[i].paymentId == id && s.procs[i].ok && Carries(s, s.procs[i]) && Arrived(events, s.procs[i])
    && Asked(events, i, verified)
  }

  // A callback that came back not ok with the payment's reference.
  ghost predicate Declined(s: State, events: seq<Event>, id: nat) {
    exists i :: 0 <= i < |s.procs| && Declines(s, events, i, id)
  }

  ghost predicate Declines(s: State, events: seq<Event>, i: nat, id: nat)
    requires i < |s.procs|
  {
    s.procs[i].paymentId == id && !s.procs[i].ok && Carries(s, s.procs[i]) && Arrived(events, s.procs[i])
  }

  ghost predicate StatusBacked(s: State, events: seq<Event>, id: nat)
    requires id in s.payments
  {
    match s.payments[id].status
    case PENDING => true
    case SUCCEEDED => Vouched(s, events, id, true)
    case CANCELLED => Declined(s, events, id)
    case FAILED => s.payments[id].providerReference.None? || Vouched(s, events, id, false)
    case EXPIRED => false
  }

  ghost predicate CreditsBacked(s: State, events: seq<Event>) {
    && (forall t :: 0 <= t < |s.ledger.txs| && s.ledger.txs[t].op.reference.PaymentRef? ==>
          Vouched(s, events, s.ledger.txs[t].op.reference.id, true))
    && (forall k :: 0 <= k < |s.ledger.db.entries| && s.ledger.db.entries[k].reference.PaymentRef? ==>
          Vouched(s, events, s.ledger.db.entries[k].reference.id, true))
  }

  ghost predicate AllBacked(s: State, events: seq<Event>) {
    && (forall i :: 0 <= i < |s.procs| ==> Backed(s, events, i))
    && (forall id :: id in s.payments ==> StatusBacked(s, events, id))
    && CreditsBacked(s, events)
  }

  // ------------------------------------------------------------------ what stays as events follow

  lemma ArrivedStays(events: seq<Event>, e: Event, p: Proc)
    requires Arrived(events, p)
    ensures Arrived(events + [e], p)
  {
    var k :| 0 <= k < |events| && events[k] == Arrive(p.paymentId, p.providerReference, p.ok);
    assert (events + [e])[k] == events[k];
  }

  lemma AskedStays(events: seq<Event>, e: Event, i: nat, verified: bool)
    requires Asked(events, i, verified)
    ensures Asked(events + [e], i, verified)
  {
    var k :| 0 <= k < |events| && AskedAt(events, k, i, verified);
    assert (events + [e])[..k] == events[..k];
    assert AskedAt(events + [e], k, i, verified);
  }

  // References once given stay, and callbacks keep what they brought.
  ghost predicate Continues(s: State, s': State) {
    && |s.procs| <= |s'.procs|
    && (forall i :: 0 <= i < |s.procs| ==> s'.procs[i] == s.procs[i].(pc := s'.procs[i].pc))
    && (forall id :: id in s.payments ==>
          && id in s'.payments
          && (s.payments[id].providerReference.Some? ==>
                s'.payments[id].providerReference == s.payments[id].providerReference))
  }

  lemma StepContinues(s: State, i: nat, verified: bool, freshWallet: nat)
    requires LM.Inv(s.ledger) && i < |s.procs|
    ensures Continues(s, StepProc(s, i, verified, freshWallet))
  {
    hide LM.Inv, LM.Do, RowLocked, L.HasEntry;
    if s.procs[i].pc == OpeningWallet && s.procs[i].paymentId in s.payments {
      CreditContinues(s, i, s.payments[s.procs[i].paymentId], freshWallet);
    }
  }

  lemma CreditContinues(s: State, i: nat, payment: Payment, freshWallet: nat)
    requires LM.Inv(s.ledger) && i < |s.procs|
    ensures Continues(s, BeginCredit(s, i, payment, freshWallet))
  {
    hide LM.Progress, LM.ReadsAreCurrent, LM.PendingIsNewer, LM.LocksAreExclusive, LM.Ordered, LM.Replay;
  }

  lemma DoContinues(s: State, e: Event)
    requires LM.Inv(s.ledger)
    ensures Continues(s, Do(s, e))
  {
    hide LM.Inv, LM.Do, StepProc, RowLocked;
    if e.Step? && e.i < |s.procs| {
      StepContinues(s, e.i, e.verified, e.freshWallet);
    }
  }

  lemma VouchedStays(s: State, s': State, events: seq<Event>, e: Event, id: nat, verified: bool)
    requires Continues(s, s') && Vouched(s, events, id, verified)
    ensures Vouched(s', events + [e], id, verified)
  {
    var i :| 0 <= i < |s.procs| && Vouches(s, events, i, id, verified);
    ArrivedStays(events, e, s.procs[i]);
    AskedStays(events, e, i, verified);
    ArrivedOfSame(events + [e], s.procs[i], s'.procs[i]);
    assert Vouches(s', events + [e], i, id, verified);
  }

  lemma ArrivedOfSame(events: seq<Event>, p: Proc, p': Proc)
    requires Arrived(events, p) && p' == p.(pc := p'.pc)
    ensures Arrived(events, p')
  {}

  lemma DeclinedStays(s: State, s': State, events: seq<Event>, e: Event, id: nat)
    requires Continues(s, s') && Declined(s, events, id)
    ensures Declined(s', events + [e], id)
  {
    var i :| 0 <= i < |s.procs| && Declines(s, events, i, id);
    ArrivedStays(events, e, s.procs[i]);
    ArrivedOfSame(events + [e], s.procs[i], s'.procs[i]);
    assert Declines(s', events + [e], i, id);
  }

  // ------------------------------------------------------------------ callbacks

  // A callback that is not touched keeps its backing.
  lemma BackedStays(s: State, s': State, events: seq<Event>, e: Event, i: nat)
    requires Continues(s, s') && i < |s.procs| && Backed(s, events, i)
    requires s'.procs[i] == s.procs[i] || s'.procs[i].pc == Ended
    ensures Backed(s', events + [e], i)
  {
    hide Arrived, Asked;
    var p := s.procs[i];
    ArrivedStays(events, e, p);
    ArrivedOfSame(events + [e], p, s'.procs[i]);
    if Confirmed(p.pc) { AskedStays(events, e, i, true); }
    if p.pc == Failing { AskedStays(events, e, i, false); }
  }

  lemma AskedNow(events: seq<Event>, e: Event, i: nat)
    requires e.Step? && e.i == i && i < |After(events).procs| && After(events).procs[i].pc == Verifying
    ensures Asked(events + [e], i, e.verified)
  {
    assert (events + [e])[..|events|] == events;
    assert AskedAt(events + [e], |events|, i, e.verified);
  }

  // Where one step takes a callback.
  lemma StepMoves(s: State, i: nat, verified: bool, freshWallet: nat)
    requires LM.Inv(s.ledger) && i < |s.procs|
    ensures var s', p := StepProc(s, i, verified, freshWallet), s.procs[i];
      var pc := s'.procs[i].pc;
      && s'.procs == s.procs[i := p.(pc := pc)]
      && (p.pc == Start && pc != Start && pc != Ended ==> Carries(s, p) && pc == if p.ok then Verifying else Cancelling)
      && (p.pc == Verifying ==> pc == if verified then LockingRow else Failing)
      && (p.pc == Cancelling || p.pc == Failing ==> pc == p.pc || pc == Ended)
      && (Confirmed(p.pc) ==> Confirmed(pc) || pc == Ended)
      && (p.pc == Ended ==> pc == Ended)
  {
    hide LM.Progress, LM.ReadsAreCurrent, LM.PendingIsNewer, LM.LocksAreExclusive, LM.Ordered, LM.Replay, L.Sound;
  }

  lemma BackedByStep(s: State, events: seq<Event>, e: Event, i: nat)
    requires LM.Inv(s.ledger) && s == After(events) && e.Step? && e.i == i < |s.procs| && Backed(s, events, i)
    ensures i < |Do(s, e).procs| && Backed(Do(s, e), events + [e], i)
  {
    hide LM.Inv, Arrived, Asked, StepProc, After, Run;
    DoContinues(s, e);
    StepMoves(s, i, e.verified, e.freshWallet);
    var s', p := Do(s, e), s.procs[i];
    ArrivedStays(events, e, p);
    ArrivedOfSame(events + [e], p, s'.procs[i]);
    if p.pc == Verifying { AskedNow(events, e, i); }
    if Confirmed(p.pc) { AskedStays(events, e, i, true); }
    if p.pc == Failing { AskedStays(events, e, i, false); }
  }

  lemma ProcsBacked(s: State, events: seq<Event>, e: Event)
    requires LM.Inv(s.ledger) && s == After(events)
    requires forall i :: 0 <= i < |s.procs| ==> Backed(s, events, i)
    ensures var s' := Do(s, e); forall i :: 0 <= i < |s'.procs| ==> Backed(s', events + [e], i)
  {
    hide LM.Inv, Backed, StepProc, After, Run;
    var s' := Do(s, e);
    DoContinues(s, e);
    if e.Step? && e.i < |s.procs| {
      StepMoves(s, e.i, e.verified, e.freshWallet);
    }
    forall i | 0 <= i < |s'.procs| ensures Backed(s', events + [e], i) {
      if e.Step? && e.i == i {
        BackedByStep(s, events, e, i);
      } else if i < |s.procs| {
        BackedStays(s, s', events, e, i);
      } else {
        JustArrived(s', events, e, i);
      }
    }
  }

  lemma JustArrived(s: State, events: seq<Event>, e: Event, i: nat)
    requires i < |s.procs| && e.Arrive? && s.procs[i] == Proc(e.paymentId, e.providerReference, e.ok, Start)
    ensures Backed(s, events + [e], i)
  {
    assert (events + [e])[|events|] == e;
  }

  // ------------------------------------------------------------------ statuses and credits

  // A status is written by a callback that stands where that status is written.
  lemma StatusWrites(s: State, e: Event, id: nat)
    requires LM.Inv(s.ledger) && id in Do(s, e).payments
    ensures var s' := Do(s, e);
      (id !in s.payments || s'.payments[id].status != s.payments[id].status) ==>
        || (s'.payments[id].status == PENDING)
        || (s'.payments[id].status == FAILED && s'.payments[id].providerReference.None?)
        || (e.Step? && e.i < |s.procs| && s.procs[e.i].paymentId == id
            && match s'.payments[id].status
               case SUCCEEDED => s.procs[e.i].pc == Committing
               case FAILED => s.procs[e.i].pc == Failing
               case CANCELLED => s.procs[e.i].pc == Cancelling
               case _ => false)
  {
    hide LM.Progress, LM.ReadsAreCurrent, LM.PendingIsNewer, LM.LocksAreExclusive, LM.Ordered, LM.Replay, L.Sound;
  }

  // Only PENDING payments are given a reference.
  lemma UnnamedStays(s: State, e: Event, id: nat)
    requires LM.Inv(s.ledger) && id in s.payments && s.payments[id].status == FAILED
    requires s.payments[id].providerReference.None?
    ensures id in Do(s, e).payments && Do(s, e).payments[id].providerReference.None?
  {
    hide LM.Progress, LM.ReadsAreCurrent, LM.PendingIsNewer, LM.LocksAreExclusive, LM.Ordered, LM.Replay, L.Sound;
  }

  lemma StatusStaysBacked(s: State, events: seq<Event>, e: Event, id: nat)
    requires LM.Inv(s.ledger) && id in Do(s, e).payments
    requires forall i :: 0 <= i < |s.procs| ==> Backed(s, events, i)
    requires id in s.payments ==> StatusBacked(s, events, id)
    ensures StatusBacked(Do(s, e), events + [e], id)
  {
    hide LM.Inv, Do, Vouched, Declined, Arrived, Asked;
    var s' := Do(s, e);
    DoContinues(s, e);
    StatusWrites(s, e, id);
    if id in s.payments && s'.payments[id].status == s.payments[id].status {
      match s.payments[id].status
      case SUCCEEDED => VouchedStays(s, s', events, e, id, true);
      case CANCELLED => DeclinedStays(s, s', events, e, id);
      case FAILED =>
        if s.payments[id].providerReference.None? {
          UnnamedStays(s, e, id);
        } else {
          VouchedStays(s, s', events, e, id, false);
        }
      case _ =>
    } else if s'.payments[id].status != PENDING
              && !(s'.payments[id].status == FAILED && s'.payments[id].providerReference.None?) {
      assert Backed(s, events, e.i);
      WriterVouches(s, s', events, e, e.i);
    }
  }

  // The backing of a callback that writes is what the status needs.
  lemma WriterVouches(s: State, s': State, events: seq<Event>, e: Event, i: nat)
    requires Continues(s, s') && i < |s.procs| && Backed(s, events, i)
    ensures var p := s.procs[i];
      && (Confirmed(p.pc) ==> Vouched(s', events + [e], p.paymentId, true))
      && (p.pc == Failing ==> Vouched(s', events + [e], p.paymentId, false))
      && (p.pc == Cancelling ==> Declined(s', events + [e], p.paymentId))
  {
    var p := s.procs[i];
    if Confirmed(p.pc) {
      assert Vouches(s, events, i, p.paymentId, true);
      VouchedStays(s, s', events, e, p.paymentId, true);
    }
    if p.pc == Failing {
      assert Vouches(s, events, i, p.paymentId, false);
      VouchedStays(s, s', events, e, p.paymentId, false);
    }
    if p.pc == Cancelling {
      assert Declines(s, events, i, p.paymentId);
      DeclinedStays(s, s', events, e, p.paymentId);
    }
  }

  // An entry that was there at its place, or carries the reference of a transaction.
  ghost predicate EntryFrom(s: LM.State, k: nat, entry: L.Entry) {
    || (k < |s.db.entries| && s.db.entries[k] == entry)
    || (exists t :: 0 <= t < |s.txs| && s.txs[t].op.reference == entry.reference)
  }

  lemma EntriesComeFrom(s: LM.State, e: LM.Event, k: nat)
    requires LM.Inv(s) && k < |LM.Do(s, e).db.entries|
    ensures EntryFrom(s, k, LM.Do(s, e).db.entries[k])
  {
    hide L.Sound, LM.Replay, LM.LocksAreExclusive, LM.Ordered, LM.PendingIsNewer, LM.ReadsAreCurrent;
    EntriesFrame(s, e);
    if |s.db.entries| <= k {
      var tx := s.txs[e.i];
      assert LM.Progress(s.db, tx) && tx.pc == LM.Commit;
      assert LM.Do(s, e).db.entries[k] == tx.appended[k - |s.db.entries|];
      assert s.txs[e.i].op.reference == LM.Do(s, e).db.entries[k].reference;
    }
  }

  lemma TxsComeFrom(s: LM.State, e: LM.Event)
    requires LM.Inv(s)
    ensures var s' := LM.Do(s, e);
      && |s'.txs| == |s.txs| + (if e.Spawn? then 1 else 0)
      && (forall t :: 0 <= t < |s.txs| ==> s'.txs[t].op == s.txs[t].op)
      && (e.Spawn? ==> s'.txs[|s.txs|].op == e.op)
  {
    hide LM.Progress, L.Sound, LM.Replay, LM.LocksAreExclusive, LM.Ordered, LM.PendingIsNewer, LM.ReadsAreCurrent;
  }

  // Where new transactions and entries that carry a payment's reference come from.
  ghost predicate CreditsFrom(s: State, s': State, e: Event) {
    && |s.ledger.txs| <= |s'.ledger.txs|
    && (forall t :: 0 <= t < |s.ledger.txs| ==> s'.ledger.txs[t].op == s.ledger.txs[t].op)
    && (forall t :: |s.ledger.txs| <= t < |s'.ledger.txs| && s'.ledger.txs[t].op.reference.PaymentRef? ==>
          e.Step? && e.i < |s.procs| && s.procs[e.i].pc == OpeningWallet
          && s'.ledger.txs[t].op.reference.id == s.procs[e.i].paymentId)
    && (forall k :: 0 <= k < |s'.ledger.db.entries| ==> EntryFrom(s.ledger, k, s'.ledger.db.entries[k]))
  }

  lemma LedgerCreditsFrom(s: State, e: Event, le: LM.Event)
    requires LM.Inv(s.ledger) && (le.Spawn? ==> !le.op.reference.PaymentRef?)
    ensures CreditsFrom(s, s.(ledger := LM.Do(s.ledger, le)), e)
  {
    hide LM.Inv, LM.Do, EntryFrom;
    TxsComeFrom(s.ledger, le);
    forall k: nat | k < |LM.Do(s.ledger, le).db.entries|
      ensures EntryFrom(s.ledger, k, LM.Do(s.ledger, le).db.entries[k])
    {
      EntriesComeFrom(s.ledger, le, k);
    }
  }

  lemma StepCreditsFrom(s: State, e: Event)
    requires LM.Inv(s.ledger) && e.Step? && e.i < |s.procs|
    ensures CreditsFrom(s, StepProc(s, e.i, e.verified, e.freshWallet), e)
  {
    hide LM.Progress, LM.ReadsAreCurrent, LM.PendingIsNewer, LM.LocksAreExclusive, LM.Ordered, LM.Replay, L.Sound;
  }

  lemma CreditsComeFrom(s: State, e: Event)
    requires LM.Inv(s.ledger)
    ensures CreditsFrom(s, Do(s, e), e)
  {
    hide LM.Inv, LM.Do, StepProc, CreditsFrom;
    match e
    case Step(i, _, _) => if i < |s.procs| { StepCreditsFrom(s, e); } else { NoneFrom(s, Do(s, e), e); }
    case InLedger(le) => if ForeignEvent(le) { LedgerCreditsFrom(s, e, le); } else { NoneFrom(s, Do(s, e), e); }
    case Crash(i) =>
      if i < |s.procs| && s.procs[i].pc.Crediting? {
        LedgerCreditsFrom(s, e, LM.Crash(s.procs[i].pc.tx));
        SameLedgerFrom(s, s.(ledger := LM.Do(s.ledger, LM.Crash(s.procs[i].pc.tx))), Do(s, e), e);
      } else {
        NoneFrom(s, Do(s, e), e);
      }
    case _ => NoneFrom(s, Do(s, e), e);
  }

  lemma NoneFrom(s: State, s': State, e: Event)
    requires s'.ledger == s.ledger
    ensures CreditsFrom(s, s', e)
  {}

  lemma SameLedgerFrom(s: State, s1: State, s': State, e: Event)
    requires CreditsFrom(s, s1, e) && s'.ledger == s1.ledger
    ensures CreditsFrom(s, s', e)
  {}

  lemma CreditsStayBacked(s: State, events: seq<Event>, e: Event)
    requires LM.Inv(s.ledger) && CreditsBacked(s, events)
    requires forall i :: 0 <= i < |s.procs| ==> Backed(s, events, i)
    ensures CreditsBacked(Do(s, e), events + [e])
  {
    hide LM.Inv, Do, Vouched, Backed;
    var s' := Do(s, e);
    DoContinues(s, e);
    CreditsComeFrom(s, e);
    forall t | 0 <= t < |s'.ledger.txs| && s'.ledger.txs[t].op.reference.PaymentRef?
      ensures Vouched(s', events + [e], s'.ledger.txs[t].op.reference.id, true)
    {
      if t < |s.ledger.txs| {
        VouchedStays(s, s', events, e, s.ledger.txs[t].op.reference.id, true);
      } else {
        WriterVouches(s, s', events, e, e.i);
      }
    }
    forall k | 0 <= k < |s'.ledger.db.entries| && s'.ledger.db.entries[k].reference.PaymentRef?
      ensures Vouched(s', events + [e], s'.ledger.db.entries[k].reference.id, true)
    {
      VouchedStays(s, s', events, e, s'.ledger.db.entries[k].reference.id, true);
    }
  }

  lemma {:induction false} AlwaysBacked(events: seq<Event>)
    ensures Inv(INITIAL) && Inv(After(events)) && AllBacked(After(events), events)
    decreases |events|
  {
    hide Inv, Backed, StatusBacked, CreditsBacked, Do;
    InitialInv();
    if events == [] {
      NothingToBack();
    } else {
      var n := |events| - 1;
      var before, e := events[..n], events[n];
      AlwaysBacked(before);
      var s := After(before);
      LedgerKept(s);
      RunPush(INITIAL, before, e);
      assert before + [e] == events;
      InvDo(s, e);
      ProcsBacked(s, before, e);
      forall id | id in Do(s, e).payments ensures StatusBacked(Do(s, e), events, id) {
        StatusStaysBacked(s, before, e, id);
      }
      CreditsStayBacked(s, before, e);
    }
  }

  lemma NothingToBack()
    ensures AllBacked(INITIAL, [])
  {}

  // ------------------------------------------------------------------ the theorem

  // The callback with the payment's reference that a verified answer of the provider was about.
  ghost predicate CallbackOf(s: State, events: seq<Event>, i: nat, id: nat, ok: bool) {
    && i < |s.procs| && s.procs[i].paymentId == id && s.procs[i].ok == ok
    && id in s.payments && s.payments[id].providerReference == Some(s.procs[i].providerReference)
    && Arrive(id, s.procs[i].providerReference, ok) in events
  }

  // Over every run of steps from the start: every credit of a payment, its pending transaction
  // included, and every status a callback wrote rest on a callback that arrived with the reference
  // the provider gave the payment, and on what the provider answered about that callback.
  lemma EveryCreditIsAuthorised(events: seq<Event>, id: nat)
    ensures Inv(INITIAL)
    ensures var s := Run(INITIAL, events);
      && (0 < Credits(s, id) || (id in s.payments && s.payments[id].status == SUCCEEDED) ==>
            exists i: nat :: CallbackOf(s, events, i, id, true) && Asked(events, i, true))
      && (id in s.payments && s.payments[id].status == CANCELLED ==> exists i: nat :: CallbackOf(s, events, i, id, false))
      && (id in s.payments && s.payments[id].status == FAILED ==>
            s.payments[id].providerReference.None?
            || exists i: nat :: CallbackOf(s, events, i, id, true) && Asked(events, i, false))
      && (id in s.payments ==> s.payments[id].status != EXPIRED)
  {
    hide Inv, Run, Asked;
    AlwaysBacked(events);
    var s := Run(INITIAL, events);
    if 0 < Credits(s, id) {
      L.CountNone(s.ledger.db.entries, L.PaymentRef(id));
      var k :| 0 <= k < |s.ledger.db.entries| && s.ledger.db.entries[k].reference == L.PaymentRef(id);
      VouchedIsCallback(s, events, id, true);
    }
    if id in s.payments {
      assert StatusBacked(s, events, id);
      match s.payments[id].status
      case SUCCEEDED => VouchedIsCallback(s, events, id, true);
      case FAILED => if s.payments[id].providerReference.Some? { VouchedIsCallback(s, events, id, false); }
      case CANCELLED => DeclinedIsCallback(s, events, id);
      case _ =>
    }
  }

  lemma VouchedIsCallback(s: State, events: seq<Event>, id: nat, verified: bool)
    requires Vouched(s, events, id, verified)
    ensures exists i: nat :: CallbackOf(s, events, i, id, true) && Asked(events, i, verified)
  {
    hide Asked;
    var i: nat :| i < |s.procs| && Vouches(s, events, i, id, verified);
    assert CallbackOf(s, events, i, id, true);
  }

  lemma DeclinedIsCallback(s: State, events: seq<Event>, id: nat)
    requires Declined(s, events, id)
    ensures exists i: nat :: CallbackOf(s, events, i, id, false)
  {
    var i: nat :| i < |s.procs| && Declines(s, events, i, id);
    assert CallbackOf(s, events, i, id, false);
  }
}
