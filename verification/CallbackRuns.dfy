/** A run in which overlapping callbacks overwrite a terminal status. */
module CallbackRuns {
  import opened Common
  import opened PaymentTypes
  import L = Ledger
  import LM = LedgerMachine
  import opened CallbackMachine

  // Two overlapping callbacks: the first commits SUCCEEDED, the second, which read PENDING before
  // that, then turns the payment CANCELLED.
  const ARRIVALS: seq<Event> :=
    [NewPayment(1, 7, 100, "subscription"), SetProviderReference(1, "A"), Arrive(1, "A", true), Arrive(1, "A", false)]

  const BOTH_READ: seq<Event> := [Step(0, true, 0), Step(1, true, 0)]

  const FIRST_SUCCEEDS: seq<Event> := [Step(0, true, 0), Step(0, true, 0), Step(0, true, 0), Step(0, true, 0)]

  lemma OverlappingCallbacksOverwrite()
    ensures Inv(INITIAL)
    ensures Inv(Run(INITIAL, ARRIVALS)) && Inv(Run(Run(INITIAL, ARRIVALS), BOTH_READ))
    ensures Inv(Run(Run(Run(INITIAL, ARRIVALS), BOTH_READ), FIRST_SUCCEEDS))
    ensures var s := Run(Run(Run(INITIAL, ARRIVALS), BOTH_READ), FIRST_SUCCEEDS);
      && 1 in s.payments && s.payments[1].status == SUCCEEDED
      && 1 in Run(s, [Step(1, true, 0)]).payments && Run(s, [Step(1, true, 0)]).payments[1].status == CANCELLED
  {
    hide LM.Progress, LM.ReadsAreCurrent, LM.PendingIsNewer, LM.LocksAreExclusive, LM.Ordered, LM.Replay,
         L.Sound, L.Count, CreditsOwned, RowsExclusive, EntryOk, ProcOk, Run;
    var arrived := BothArrive();
    var pending := BothRead(arrived);
    var s := FirstSucceeds(pending);
    var last := Do(s, Step(1, true, 0));
    RunEnds(s, Step(1, true, 0), last);
  }

  function Row(status: PaymentStatus): map<nat, Payment> {
    map[1 := Payment(7, 100, "subscription", status, Some("A"))]
  }

  lemma BothArrive() returns (s: State)
    ensures Inv(INITIAL) && Inv(s) && s == Run(INITIAL, ARRIVALS)
    ensures s == State(LM.INITIAL, Row(PENDING), [Proc(1, "A", true, Start), Proc(1, "A", false, Start)])
  {
    hide LM.Progress, LM.ReadsAreCurrent, LM.PendingIsNewer, LM.LocksAreExclusive, LM.Ordered, LM.Replay,
         L.Sound, L.Count, CreditsOwned, RowsExclusive, EntryOk, ProcOk, Run;
    InitialInv();
    var p, q := Proc(1, "A", true, Start), Proc(1, "A", false, Start);
    var s0 := State(LM.INITIAL, map[1 := Payment(7, 100, "subscription", PENDING, None)], []);
    var s1 := State(LM.INITIAL, Row(PENDING), []);
    var s2 := s1.(procs := [p]);
    s := s1.(procs := [p, q]);
    var a, b := Arrive(1, "A", true), Arrive(1, "A", false);
    RunTakes(INITIAL, NewPayment(1, 7, 100, "subscription"), [SetProviderReference(1, "A"), a, b], s0);
    RunTakes(s0, SetProviderReference(1, "A"), [a, b], s1);
    RunTakes(s1, a, [b], s2);
    RunEnds(s2, b, s);
    assert [SetProviderReference(1, "A")] + [a, b] == [SetProviderReference(1, "A"), a, b] && [a] + [b] == [a, b];
    assert ARRIVALS == [NewPayment(1, 7, 100, "subscription")] + [SetProviderReference(1, "A"), a, b];
  }

  lemma BothRead(s: State) returns (r: State)
    requires Inv(s)
    requires s == State(LM.INITIAL, Row(PENDING), [Proc(1, "A", true, Start), Proc(1, "A", false, Start)])
    ensures Inv(r) && r == Run(s, BOTH_READ)
    ensures r == State(LM.INITIAL, Row(PENDING), [Proc(1, "A", true, Verifying), Proc(1, "A", false, Cancelling)])
  {
    hide LM.Progress, LM.ReadsAreCurrent, LM.PendingIsNewer, LM.LocksAreExclusive, LM.Ordered, LM.Replay,
         L.Sound, L.Count, CreditsOwned, RowsExclusive, EntryOk, ProcOk, Run;
    var p, q := Proc(1, "A", true, Verifying), Proc(1, "A", false, Cancelling);
    var s1 := s.(procs := [p, s.procs[1]]);
    r := s.(procs := [p, q]);
    RunTakes(s, Step(0, true, 0), [Step(1, true, 0)], s1);
    RunEnds(s1, Step(1, true, 0), r);
    assert BOTH_READ == [Step(0, true, 0)] + [Step(1, true, 0)];
  }

  lemma FirstSucceeds(s: State) returns (r: State)
    requires Inv(s)
    requires s == State(LM.INITIAL, Row(PENDING), [Proc(1, "A", true, Verifying), Proc(1, "A", false, Cancelling)])
    ensures Inv(r) && r == Run(s, FIRST_SUCCEEDS)
    ensures r == State(LM.INITIAL, Row(SUCCEEDED), [Proc(1, "A", true, Ended), Proc(1, "A", false, Cancelling)])
  {
    hide LM.Progress, LM.ReadsAreCurrent, LM.PendingIsNewer, LM.LocksAreExclusive, LM.Ordered, LM.Replay,
         L.Sound, L.Count, CreditsOwned, RowsExclusive, EntryOk, ProcOk, Run;
    var p, q := Proc(1, "A", true, Start), Proc(1, "A", false, Cancelling);
    var step := Step(0, true, 0);
    var s1, s2, s3 := s.(procs := [p.(pc := LockingRow), q]), s.(procs := [p.(pc := Reconciling), q]),
                      s.(procs := [p.(pc := Committing), q]);
    r := State(LM.INITIAL, Row(SUCCEEDED), [p.(pc := Ended), q]);
    RunTakes(s, step, [step, step, step], s1);
    RunTakes(s1, step, [step, step], s2);
    RunTakes(s2, step, [step], s3);
    RunEnds(s3, step, r);
    assert [step] + [step] == [step, step] && [step] + [step, step] == [step, step, step];
    assert FIRST_SUCCEEDS == [step] + [step, step, step];
  }

  lemma RunTakes(s: State, e: Event, rest: seq<Event>, s': State)
    requires Inv(s) && Do(s, e) == s'
    ensures Inv(s') && Run(s, [e] + rest) == Run(s', rest)
  {
    InvDo(s, e);
    assert ([e] + rest)[1..] == rest;
  }

  lemma RunEnds(s: State, e: Event, s': State)
    requires Inv(s) && Do(s, e) == s'
    ensures Inv(s') && Run(s, [e]) == s'
  {
    InvDo(s, e);
  }
}
