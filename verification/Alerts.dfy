/** The low-runs and depleted alerts of one user on one listing, as fire-and-forget steps that
    interleave with consumption, top-ups and the delayed reset of the alert's dedup key. */
module Alerts {
  import opened Common

  // A started dispatch: the balance its consume call saw, the top-up it belongs to, and its stage.
  datatype Stage = Queued | Claiming | Finished

  datatype Job = Job(remaining: nat, epoch: nat, stage: Stage)

  datatype Entry = Low(at: int, epoch: nat) | Depleted(at: int, epoch: nat) | Cleared(at: int)

  // pack: the runs of the newest purchase. dedup: the time after which the Redis key is gone.
  // starts: the balance right after each top-up, so its length numbers the current one.
  datatype State = State(
    now: int, balance: nat, pack: nat, dedup: Option<int>, clears: nat, starts: seq<nat>,
    jobs: seq<Job>, log: seq<Entry>)

  datatype Event =
    | TopUp(granted: nat, pack: nat)
    | Clear
    | Use
    | Step(j: nat, delivered: bool)
    | Drop(j: nat)
    | Tick(elapsed: nat)

  const INITIAL := State(0, 0, 0, None, 0, [], [], [])

  const LOW_RUNS_DEDUP_TTL_MS := 86_400_000

  // A tenth of the pack, rounded up, and at least one run.
  function Threshold(pack: nat): (t: nat)
    ensures 1 <= t && pack <= 10 * t && (1 < t ==> 10 * (t - 1) < pack)
  {
    var tenth := (pack + 9) / 10;
    if tenth < 1 then 1 else tenth
  }

  predicate KeyLive(s: State) {
    s.dedup.Some? && s.now <= s.dedup.value
  }

  // One step of a dispatch: read the newest pack, then claim the key and send.
  function StepJob(s: State, j: nat, delivered: bool): State
    requires j < |s.jobs|
  {
    var job := s.jobs[j];
    var finished := s.jobs[j := job.(stage := Finished)];
    match job.stage
    case Queued =>
      if job.remaining == 0 then
        s.(jobs := finished, log := if delivered then s.log + [Depleted(s.now, job.epoch)] else s.log)
      else if s.pack == 0 || job.remaining > Threshold(s.pack) then s.(jobs := finished)
      else s.(jobs := s.jobs[j := job.(stage := Claiming)])
    case Claiming =>
      if KeyLive(s) then s.(jobs := finished)
      else
        s.(jobs := finished, dedup := Some(s.now + LOW_RUNS_DEDUP_TTL_MS),
           log := if delivered then s.log + [Low(s.now, job.epoch)] else s.log)
    case Finished => s
  }

  /** What a dispatch reads and writes. */
  class ThresholdNotifications {
    var now: int
    var pack: nat
    var dedup: Option<int>
    var sent: seq<Entry>

    constructor ()
      ensures now == 0 && pack == 0 && dedup == None && sent == []
    {
      now, pack, dedup, sent := 0, 0, None, [];
    }

    ghost function WithJob(remaining: nat, epoch: nat): State
      reads this
    {
      State(now, 0, pack, dedup, 0, [], [Job(remaining, epoch, Queued)], sent)
    }

    // A whole dispatch with nothing in between.
    method Dispatch(remaining: nat, epoch: nat)
      modifies this`dedup, this`sent
      ensures var s := StepJob(StepJob(old(WithJob(remaining, epoch)), 0, true), 0, true);
        dedup == s.dedup && sent == s.log
    {
      if remaining == 0 {
        sent := sent + [Depleted(now, epoch)];
        return;
      }
      if pack == 0 { return; }
      var threshold := Threshold(pack);
      if remaining > threshold { return; }
      var claimed := !(dedup.Some? && now <= dedup.value);
      if !claimed { return; }
      dedup := Some(now + LOW_RUNS_DEDUP_TTL_MS);
      sent := sent + [Low(now, epoch)];
    }
  }

  // A top-up grants all its packs; the newest of its purchases counts as the pack. The dedup key is
  // cleared some time after the checkout commits.
  function Do(s: State, e: Event): State {
    match e
    case TopUp(granted, pack) =>
      if 0 < pack <= granted then
        s.(balance := s.balance + granted, pack := pack, clears := s.clears + 1, starts := s.starts + [s.balance + granted])
      else s
    case Clear =>
      if 0 < s.clears then s.(dedup := None, clears := s.clears - 1, log := s.log + [Cleared(s.now)]) else s
    case Use =>
      if 0 < s.balance then
        s.(balance := s.balance - 1, jobs := s.jobs + [Job(s.balance - 1, |s.starts|, Queued)])
      else s
    case Step(j, delivered) => if j < |s.jobs| then StepJob(s, j, delivered) else s
    case Drop(j) => if j < |s.jobs| then s.(jobs := s.jobs[j := s.jobs[j].(stage := Finished)]) else s
    case Tick(elapsed) => s.(now := s.now + elapsed)
  }

  function Run(s: State, events: seq<Event>): State {
    if events == [] then s else Do(Run(s, events[..|events| - 1]), events[|events| - 1])
  }

  // ------------------------------------------------------------------ one step of a dispatch

  // The key is free: nobody holds it, or its 24 hours are over.
  predicate KeyFree(s: State) {
    s.dedup.None? || s.dedup.value < s.now
  }

  // A queued dispatch that saw no run left sends the depleted alert; one that saw at most a tenth of
  // the newest pack, rounded up, goes on to claim the key; any other ends. A claim succeeds exactly on
  // a free key, holds it for 24 hours, and sends the low alert.
  lemma DispatchExactly(s: State, j: nat)
    requires j < |s.jobs| && s.jobs[j].stage != Finished
    ensures var s', job := StepJob(s, j, true), s.jobs[j];
      var few := 0 < s.pack && 10 * (job.remaining - 1) < s.pack;
      var on := job.stage == Queued && 0 < job.remaining && few;
      && s' == s.(jobs := s'.jobs, dedup := s'.dedup, log := s'.log)
      && s'.jobs == s.jobs[j := job.(stage := if on then Claiming else Finished)]
      && (job.stage == Queued ==>
            && s'.dedup == s.dedup
            && s'.log == s.log + (if job.remaining == 0 then [Depleted(s.now, job.epoch)] else []))
      && (job.stage == Claiming ==>
            && s'.dedup == (if KeyFree(s) then Some(s.now + 86_400_000) else s.dedup)
            && s'.log == s.log + (if KeyFree(s) then [Low(s.now, job.epoch)] else []))
  {}

  // ------------------------------------------------------------------ low alerts are a day apart

  ghost predicate NoClearBetween(log: seq<Entry>, i: nat, j: nat) {
    forall k :: i < k < j && k < |log| ==> !log[k].Cleared?
  }

  ghost predicate Spaced(log: seq<Entry>) {
    forall i, j :: 0 <= i < j < |log| && log[i].Low? && log[j].Low? && NoClearBetween(log, i, j) ==>
      log[i].at + LOW_RUNS_DEDUP_TTL_MS < log[j].at
  }

  // Every alert since the last clear still holds the key.
  ghost predicate KeyHeld(s: State) {
    forall i :: 0 <= i < |s.log| && s.log[i].Low? && NoClearBetween(s.log, i, |s.log|) ==>
      s.dedup.Some? && s.log[i].at + LOW_RUNS_DEDUP_TTL_MS <= s.dedup.value
  }

  lemma PushClear(log: seq<Entry>, e: Entry, i: nat, j: nat)
    requires i < j <= |log|
    ensures NoClearBetween(log + [e], i, j) <==> NoClearBetween(log, i, j)
    ensures NoClearBetween(log + [e], i, |log| + 1) <==> NoClearBetween(log, i, |log|) && !e.Cleared?
  {
    assert forall k :: 0 <= k < |log| ==> (log + [e])[k] == log[k];
    assert (log + [e])[|log|] == e;
  }

  lemma SpacingPush(s: State, s': State, e: Entry)
    requires Spaced(s.log) && KeyHeld(s) && s'.log == s.log + [e]
    requires e.Low? ==> !KeyLive(s) && e.at == s.now && s'.dedup == Some(s.now + LOW_RUNS_DEDUP_TTL_MS)
    requires e.Depleted? ==> s'.dedup == s.dedup
    ensures Spaced(s'.log) && KeyHeld(s')
  {
    hide NoClearBetween;
    var n := |s.log|;
    forall i, j | 0 <= i < j < |s'.log| && s'.log[i].Low? && s'.log[j].Low? && NoClearBetween(s'.log, i, j)
      ensures s'.log[i].at + LOW_RUNS_DEDUP_TTL_MS < s'.log[j].at
    {
      PushClear(s.log, e, i, j);
    }
    forall i | 0 <= i < |s'.log| && s'.log[i].Low? && NoClearBetween(s'.log, i, |s'.log|)
      ensures s'.dedup.Some? && s'.log[i].at + LOW_RUNS_DEDUP_TTL_MS <= s'.dedup.value
    {
      if i < n {
        PushClear(s.log, e, i, n);
      }
    }
  }

  lemma SpacingStep(s: State, e: Event)
    requires Spaced(s.log) && KeyHeld(s)
    ensures Spaced(Do(s, e).log) && KeyHeld(Do(s, e))
  {
    hide Spaced, NoClearBetween;
    var s' := Do(s, e);
    if s'.log != s.log {
      SpacingPush(s, s', s'.log[|s.log|]);
    } else if e.Step? && e.j < |s.jobs| && s.jobs[e.j].stage == Claiming && !KeyLive(s) {
      forall i | 0 <= i < |s.log| && s.log[i].Low? && NoClearBetween(s.log, i, |s.log|)
        ensures s.log[i].at + LOW_RUNS_DEDUP_TTL_MS <= s'.dedup.value
      {}
    }
  }

  // Whatever the interleaving, two low alerts with no reset in between are over 24 hours apart.
  lemma {:induction false} LowAlertsAreADayApart(events: seq<Event>)
    ensures Spaced(Run(INITIAL, events).log) && KeyHeld(Run(INITIAL, events))
  {
    hide Spaced, KeyHeld, Do;
    if events == [] {
      NothingSent();
    } else {
      LowAlertsAreADayApart(events[..|events| - 1]);
      SpacingStep(Run(INITIAL, events[..|events| - 1]), events[|events| - 1]);
    }
  }

  lemma NothingSent()
    ensures Spaced(INITIAL.log) && KeyHeld(INITIAL)
  {}

  // ------------------------------------------------------------------ depleted once per top-up

  function DepletedCount(log: seq<Entry>, epoch: nat): nat {
    if log == [] then 0 else
      var n := |log| - 1;
      DepletedCount(log[..n], epoch) + (if log[n].Depleted? && log[n].epoch == epoch then 1 else 0)
  }

  // Dispatches that will still send one.
  function DepletedPending(jobs: seq<Job>, epoch: nat): nat {
    if jobs == [] then 0 else
      var n := |jobs| - 1;
      DepletedPending(jobs[..n], epoch)
      + (if jobs[n].remaining == 0 && jobs[n].epoch == epoch && jobs[n].stage == Queued then 1 else 0)
  }

  ghost predicate DepletedOk(s: State) {
    && (forall k: nat :: DepletedCount(s.log, k) + DepletedPending(s.jobs, k) <= (if k <= |s.starts| then 1 else 0))
    && (0 < s.balance ==> DepletedCount(s.log, |s.starts|) + DepletedPending(s.jobs, |s.starts|) == 0)
  }

  lemma DepletedPush(log: seq<Entry>, e: Entry, k: nat)
    ensures DepletedCount(log + [e], k) == DepletedCount(log, k) + (if e.Depleted? && e.epoch == k then 1 else 0)
  {
    assert (log + [e])[..|log|] == log;
  }

  function Weight(job: Job, k: nat): nat {
    if job.remaining == 0 && job.epoch == k && job.stage == Queued then 1 else 0
  }

  lemma PendingUpdate(jobs: seq<Job>, j: nat, job: Job, k: nat)
    requires j < |jobs|
    ensures DepletedPending(jobs[j := job], k) == DepletedPending(jobs, k) - Weight(jobs[j], k) + Weight(job, k)
  {
    var n := |jobs| - 1;
    if j < n {
      assert jobs[j := job][..n] == jobs[..n][j := job];
      PendingUpdate(jobs[..n], j, job, k);
    } else {
      assert jobs[j := job][..n] == jobs[..n];
    }
  }

  lemma PendingPush(jobs: seq<Job>, job: Job, k: nat)
    ensures DepletedPending(jobs + [job], k) == DepletedPending(jobs, k) + Weight(job, k)
  {
    assert (jobs + [job])[..|jobs|] == jobs;
  }

  lemma DepletedStep(s: State, e: Event)
    requires DepletedOk(s)
    ensures DepletedOk(Do(s, e))
  {
    hide DepletedCount, DepletedPending, Threshold, KeyLive;
    var s' := Do(s, e);
    forall k: nat
      ensures DepletedCount(s'.log, k) + DepletedPending(s'.jobs, k)
           <= DepletedCount(s.log, k) + DepletedPending(s.jobs, k)
              + (if e == Use && s.balance == 1 && k == |s.starts| then 1 else 0)
    {
      if s'.log != s.log {
        DepletedPush(s.log, s'.log[|s.log|], k);
      }
      match e
      case Use => if 0 < s.balance { PendingPush(s.jobs, s'.jobs[|s.jobs|], k); }
      case Step(j, _) => if j < |s.jobs| { PendingUpdate(s.jobs, j, s'.jobs[j], k); }
      case Drop(j) => if j < |s.jobs| { PendingUpdate(s.jobs, j, s'.jobs[j], k); }
      case _ =>
    }
  }

  // Each top-up leads to at most one depleted alert, however late it is sent.
  lemma {:induction false} DepletedOncePerTopUp(events: seq<Event>, epoch: nat)
    ensures DepletedOk(Run(INITIAL, events)) && DepletedCount(Run(INITIAL, events).log, epoch) <= 1
  {
    hide Do;
    if events != [] {
      DepletedOncePerTopUp(events[..|events| - 1], epoch);
      DepletedStep(Run(INITIAL, events[..|events| - 1]), events[|events| - 1]);
    }
  }

  // ------------------------------------------------------------------ low before depleted

  // Runs in which every reset and every dispatch goes through before anything else happens.
  datatype Act = Buy(granted: nat, pack: nat) | Spend | Wait(elapsed: nat)

  function Perform(s: State, a: Act): State {
    match a
    case Buy(granted, pack) => Do(Do(s, TopUp(granted, pack)), Clear)
    case Spend => Do(Do(Do(s, Use), Step(|s.jobs|, true)), Step(|s.jobs|, true))
    case Wait(elapsed) => Do(s, Tick(elapsed))
  }

  function PerformAll(s: State, acts: seq<Act>): State {
    if acts == [] then s else Perform(PerformAll(s, acts[..|acts| - 1]), acts[|acts| - 1])
  }

  ghost predicate LowBefore(log: seq<Entry>, epoch: nat, j: nat) {
    exists i :: 0 <= i < j && i < |log| && log[i].Low? && log[i].epoch == epoch
  }

  ghost predicate DepletedAnnounced(s: State, j: nat)
    requires j < |s.log| && s.log[j].Depleted?
  {
    && 1 <= s.log[j].epoch <= |s.starts|
    && (LowBefore(s.log, s.log[j].epoch, j) <==> 2 <= s.starts[s.log[j].epoch - 1])
  }

  ghost predicate Orderly(s: State) {
    var e := |s.starts|;
    && s.clears == 0
    && (e == 0 ==> s.balance == 0 && s.log == [])
    && (0 < e ==>
          && 1 <= s.starts[e - 1] && s.balance <= s.starts[e - 1] && 0 < s.pack
          && (s.dedup.Some? ==> LowBefore(s.log, e, |s.log|))
          && (2 <= s.starts[e - 1] && s.balance <= 1 ==> LowBefore(s.log, e, |s.log|))
          && (LowBefore(s.log, e, |s.log|) ==> 2 <= s.starts[e - 1]))
    && (forall i :: 0 <= i < |s.log| && s.log[i].Low? ==> s.log[i].epoch <= e)
    && (forall j :: 0 <= j < |s.log| && s.log[j].Depleted? ==> DepletedAnnounced(s, j))
  }

  lemma LowPush(log: seq<Entry>, entry: Entry, epoch: nat, j: nat)
    requires j <= |log|
    ensures LowBefore(log + [entry], epoch, j) <==> LowBefore(log, epoch, j)
    ensures LowBefore(log + [entry], epoch, |log| + 1)
       <==> LowBefore(log, epoch, |log|) || (entry.Low? && entry.epoch == epoch)
  {
    var all := log + [entry];
    assert forall i :: 0 <= i < |log| ==> all[i] == log[i];
    assert all[|log|] == entry;
  }

  lemma BuyKeepsOrder(s: State, granted: nat, pack: nat)
    requires Orderly(s)
    ensures Orderly(Perform(s, Buy(granted, pack)))
  {
    hide LowBefore;
    if 0 < pack <= granted {
      var s' := Perform(s, Buy(granted, pack));
      var e := |s'.starts|;
      LowPush(s.log, Cleared(s.now), e, |s.log|);
      NoLowYet(s.log, e);
      forall j | 0 <= j < |s'.log| && s'.log[j].Depleted? ensures DepletedAnnounced(s', j) {
        assert s'.log[j] == s.log[j] && DepletedAnnounced(s, j);
        LowPush(s.log, Cleared(s.now), s.log[j].epoch, j);
      }
    }
  }

  lemma NoLowYet(log: seq<Entry>, epoch: nat)
    requires forall i :: 0 <= i < |log| && log[i].Low? ==> log[i].epoch < epoch
    ensures !LowBefore(log, epoch, |log|)
  {}

  // What one run spent, with its dispatch, does to the state.
  lemma SpendOutcome(s: State)
    requires Orderly(s) && 0 < s.balance
    ensures var s', r, e := Perform(s, Spend), s.balance - 1, |s.starts|;
      && s'.balance == r && s'.pack == s.pack && s'.clears == s.clears && s'.starts == s.starts
      && (if r == 0 then s'.log == s.log + [Depleted(s.now, e)] && s'.dedup == s.dedup
          else if r <= Threshold(s.pack) && !KeyLive(s) then s'.log == s.log + [Low(s.now, e)] && s'.dedup.Some?
          else s'.log == s.log && s'.dedup == s.dedup)
  {
    hide Threshold, LowBefore, DepletedAnnounced;
    var s1 := Do(s, Use);
    var j := |s.jobs|;
    assert s1.jobs[j] == Job(s.balance - 1, |s.starts|, Queued);
    var s2 := Do(s1, Step(j, true));
    assert s2.jobs[j].stage == Claiming || s2.jobs[j].stage == Finished;
  }

  lemma SpendKeepsOrder(s: State)
    requires Orderly(s)
    ensures Orderly(Perform(s, Spend))
  {
    if 0 < s.balance {
      SpendOutcome(s);
      hide LowBefore, Perform;
      var s', e := Perform(s, Spend), |s.starts|;
      if s'.log != s.log {
        var entry := s'.log[|s.log|];
        LowPush(s.log, entry, e, |s.log|);
        forall j | 0 <= j < |s'.log| && s'.log[j].Depleted? ensures DepletedAnnounced(s', j) {
          if j < |s.log| {
            assert DepletedAnnounced(s, j);
          }
          LowPush(s.log, entry, s'.log[j].epoch, j);
        }
      }
    }
  }

  lemma {:induction false} OrderKept(acts: seq<Act>)
    ensures Orderly(PerformAll(INITIAL, acts))
  {
    hide Orderly, Do;
    if acts == [] {
      OrderAtFirst();
    } else {
      var s := PerformAll(INITIAL, acts[..|acts| - 1]);
      OrderKept(acts[..|acts| - 1]);
      match acts[|acts| - 1]
      case Buy(granted, pack) => BuyKeepsOrder(s, granted, pack);
      case Spend => SpendKeepsOrder(s);
      case Wait(elapsed) => WaitKeepsOrder(s, elapsed);
    }
  }

  lemma OrderAtFirst()
    ensures Orderly(INITIAL)
  {}

  lemma WaitKeepsOrder(s: State, elapsed: nat)
    requires Orderly(s)
    ensures Orderly(Perform(s, Wait(elapsed)))
  {
    hide LowBefore;
    var s' := Perform(s, Wait(elapsed));
    forall j | 0 <= j < |s'.log| && s'.log[j].Depleted? ensures DepletedAnnounced(s', j) {
      assert DepletedAnnounced(s, j);
    }
  }

  // In an orderly run a low alert comes before the depleted alert of the same top-up exactly when
  // that top-up left at least two runs.
  lemma LowComesBeforeDepleted(acts: seq<Act>, j: nat)
    ensures var s := PerformAll(INITIAL, acts);
      j < |s.log| && s.log[j].Depleted? ==>
        && 1 <= s.log[j].epoch <= |s.starts|
        && (LowBefore(s.log, s.log[j].epoch, j) <==> 2 <= s.starts[s.log[j].epoch - 1])
  {
    hide PerformAll, LowBefore;
    OrderKept(acts);
    var s := PerformAll(INITIAL, acts);
    assert j < |s.log| && s.log[j].Depleted? ==> DepletedAnnounced(s, j);
  }

  // ------------------------------------------------------------------ the same under interleaving

  // A dispatch that is about to claim the key for the newest top-up saw few enough runs of its pack.
  ghost predicate ClaimsFit(s: State) {
    forall j :: 0 <= j < |s.jobs| && s.jobs[j].stage == Claiming && s.jobs[j].epoch == |s.starts| ==>
      1 <= s.jobs[j].remaining <= Threshold(s.pack)
  }

  ghost predicate OnlyNewest(s: State) {
    forall j :: 0 <= j < |s.jobs| && s.jobs[j].stage != Finished ==> s.jobs[j].epoch == |s.starts|
  }

  // The key has just been cleared for the newest top-up, no reset is due, and no dispatch of an
  // earlier top-up is still under way.
  ghost predicate JustReset(s: State) {
    0 < |s.starts| && 0 < s.pack && s.clears == 0 && s.dedup == None && OnlyNewest(s) && ClaimsFit(s)
  }

  // What happens until the next top-up, when no dispatch dies or fails to send.
  predicate Undisturbed(e: Event) {
    e.Clear? || e.Use? || e.Tick? || (e.Step? && e.delivered)
  }

  // A dispatch that saw few runs left, but not none, and has finished since s.
  ghost predicate SawLowSince(s: State, s': State, j: nat)
    requires j < |s'.jobs|
  {
    && 1 <= s'.jobs[j].remaining <= Threshold(s.pack)
    && s'.jobs[j].stage == Finished && (j < |s.jobs| ==> s.jobs[j].stage != Finished)
  }

  ghost predicate LowSince(s: State, s': State) {
    LowBefore(s.log, |s.starts|, |s.log|) || exists j: nat :: j < |s'.jobs| && SawLowSince(s, s', j)
  }

  // What holds from the reset on.
  ghost predicate Follows(s: State, s': State) {
    var e := |s.starts|;
    && s'.starts == s.starts && s'.pack == s.pack && s'.clears == 0 && |s.jobs| <= |s'.jobs|
    && (forall j :: 0 <= j < |s.jobs| && s.jobs[j].stage == Finished ==> s'.jobs[j].stage == Finished)
    && OnlyNewest(s') && ClaimsFit(s')
    && (s'.dedup.Some? ==> LowBefore(s'.log, e, |s'.log|))
    && (LowBefore(s'.log, e, |s'.log|) <==> LowSince(s, s'))
  }

  // A dispatch makes one step: what it may add to the log, and what it leaves of the others.
  lemma StepEffect(s: State, j: nat)
    requires 0 < s.pack && OnlyNewest(s) && ClaimsFit(s) && j < |s.jobs|
    ensures var s', job, e := Do(s, Step(j, true)), s.jobs[j], |s.starts|;
      && s'.starts == s.starts && s'.pack == s.pack && s'.clears == s.clears
      && s'.jobs == s.jobs[j := job.(stage := s'.jobs[j].stage)] && OnlyNewest(s') && ClaimsFit(s')
      && (s'.log == s.log || s'.log == s.log + [Low(s.now, e)] || s'.log == s.log + [Depleted(s.now, e)])
      && (s'.jobs[j].stage == Finished && job.stage != Finished && 1 <= job.remaining <= Threshold(s.pack) <==>
            job.stage == Claiming)
      && (s'.log == s.log + [Low(s.now, e)] ==> job.stage == Claiming)
      && (job.stage == Claiming ==> s'.log == s.log + [Low(s.now, e)] || s.dedup.Some?)
      && (s'.dedup.Some? ==> s.dedup.Some? || s'.log == s.log + [Low(s.now, e)])
      && (job.stage == Finished ==> s' == s)
  {
    hide Threshold;
    var e := |s.starts|;
    assert (s.log + [Low(s.now, e)])[|s.log|] != (s.log + [Depleted(s.now, e)])[|s.log|];
    assert |s.log + [Low(s.now, e)]| != |s.log|;
  }

  lemma FollowsStep(s: State, s1: State, j: nat)
    requires 0 < s.pack && Follows(s, s1) && j < |s1.jobs|
    ensures Follows(s, Do(s1, Step(j, true)))
  {
    hide LowBefore, Threshold, OnlyNewest, ClaimsFit, StepJob;
    StepEffect(s1, j);
    var s', e := Do(s1, Step(j, true)), |s.starts|;
    if s'.log != s1.log {
      LowPush(s1.log, s'.log[|s1.log|], e, |s1.log|);
    }
    forall k: nat | k < |s1.jobs| && k != j ensures SawLowSince(s, s', k) <==> SawLowSince(s, s1, k) {}
    assert s1.jobs[j].stage == Finished ==> (SawLowSince(s, s', j) <==> SawLowSince(s, s1, j));
    assert s1.jobs[j].stage == Claiming ==> SawLowSince(s, s', j);
    assert s1.jobs[j].stage == Queued ==> !SawLowSince(s, s', j) && !SawLowSince(s, s1, j);
  }

  lemma FollowsUse(s: State, s1: State)
    requires Follows(s, s1)
    ensures Follows(s, Do(s1, Use))
  {
    hide LowBefore, Threshold;
    var s' := Do(s1, Use);
    forall k: nat | k < |s1.jobs| ensures SawLowSince(s, s', k) <==> SawLowSince(s, s1, k) {}
  }

  lemma {:induction false} FollowsRun(s: State, events: seq<Event>)
    requires JustReset(s) && forall e :: e in events ==> Undisturbed(e)
    ensures Follows(s, Run(s, events))
  {
    hide Do, Follows, JustReset;
    if events == [] {
      FollowsAtFirst(s);
    } else {
      FollowsRun(s, events[..|events| - 1]);
      var s1 := Run(s, events[..|events| - 1]);
      assert events[|events| - 1] in events;
      match events[|events| - 1]
      case Use => FollowsUse(s, s1);
      case Step(j, _) =>
        if j < |s1.jobs| {
          FollowsReset(s);
          FollowsStep(s, s1, j);
        } else {
          FollowsQuiet(s, s1, Step(j, true));
        }
      case e => FollowsQuiet(s, s1, e);
    }
  }

  lemma FollowsReset(s: State)
    requires JustReset(s)
    ensures 0 < s.pack
  {}

  lemma FollowsQuiet(s: State, s1: State, e: Event)
    requires Follows(s, s1) && (e.Clear? || e.Tick? || (e.Step? && |s1.jobs| <= e.j))
    ensures Follows(s, Do(s1, e))
  {
    hide LowBefore, Threshold;
    var s' := Do(s1, e);
    forall k: nat | k < |s1.jobs| ensures SawLowSince(s, s', k) <==> SawLowSince(s, s1, k) {}
  }

  lemma FollowsAtFirst(s: State)
    requires JustReset(s)
    ensures Follows(s, s)
  {}

  // However consumption and dispatches interleave after a reset, a low alert of the newest top-up has
  // been sent exactly when one had been before or a dispatch that saw few runs left has finished since.
  lemma LowExactly(s: State, events: seq<Event>)
    requires JustReset(s) && forall e :: e in events ==> Undisturbed(e)
    ensures var s' := Run(s, events);
      s'.starts == s.starts && (LowBefore(s'.log, |s.starts|, |s'.log|) <==> LowSince(s, s'))
  {
    hide LowBefore, LowSince;
    FollowsRun(s, events);
  }

  ghost predicate Usual(s: State) {
    && ClaimsFit(s) && (s.starts == [] ==> s.clears == 0) && (s.starts != [] ==> 0 < s.pack)
    && forall j :: 0 <= j < |s.jobs| ==> s.jobs[j].epoch <= |s.starts|
  }

  lemma UsualStep(s: State, e: Event)
    requires Usual(s)
    ensures Usual(Do(s, e))
  {
    hide Threshold, KeyLive;
  }

  lemma {:induction false} AlwaysUsual(events: seq<Event>)
    ensures Usual(Run(INITIAL, events))
  {
    hide Do, Usual;
    if events == [] {
      UsualAtFirst();
    } else {
      AlwaysUsual(events[..|events| - 1]);
      UsualStep(Run(INITIAL, events[..|events| - 1]), events[|events| - 1]);
    }
  }

  lemma UsualAtFirst()
    ensures Usual(INITIAL)
  {}

  // A reset that leaves none due and finds only dispatches of the newest top-up under way.
  ghost predicate CleanReset(before: seq<Event>) {
    Run(INITIAL, before).clears == 1 && OnlyNewest(Run(INITIAL, before))
  }

  lemma ResetLeaves(before: seq<Event>)
    requires CleanReset(before)
    ensures JustReset(Run(INITIAL, before + [Clear]))
  {
    RunPush(INITIAL, before, Clear);
    AlwaysUsual(before);
  }

  // From the start: once such a reset has gone through, the depleted alert comes after a low alert of
  // the same top-up exactly when one was sent before the reset or a dispatch that saw few runs left
  // has finished between the reset and the depleted alert.
  lemma LowComesFirstExactly(before: seq<Event>, events: seq<Event>, none: nat)
    requires CleanReset(before) && forall e :: e in events ==> Undisturbed(e)
    ensures var s := Run(INITIAL, before + [Clear]);
      var s', e := Run(s, events), |s.starts|;
      none < |s'.jobs| && s'.jobs[none].remaining == 0 && s'.jobs[none].stage == Queued ==>
        var sent := Do(s', Step(none, true)).log;
        && sent == s'.log + [Depleted(s'.now, e)]
        && (LowBefore(sent, e, |s'.log|) <==> LowSince(s, s'))
  {
    hide LowBefore, LowSince, Run;
    ResetLeaves(before);
    var s := Run(INITIAL, before + [Clear]);
    FollowsRun(s, events);
    var s', e := Run(s, events), |s.starts|;
    LowPush(s'.log, Depleted(s'.now, e), e, |s'.log|);
  }

  // ------------------------------------------------------------------ when the reset comes late

  // One pack of two used up, with its low alert still holding the key.
  const USED_UP: seq<Event> :=
    [TopUp(2, 2), Clear, Use, Step(0, true), Step(0, true), Use, Step(1, true), Tick(0)]

  // A second pack of two, whose reset comes after it is used up as well.
  const LATE_RESET: seq<Event> :=
    [TopUp(2, 2), Tick(1000), Use, Step(2, true), Step(2, true), Use, Step(3, true), Clear]

  const ONE_LEFT := State(0, 1, 2, Some(LOW_RUNS_DEDUP_TTL_MS), 0, [2], [Job(1, 1, Finished)], [Cleared(0), Low(0, 1)])

  const NONE_LEFT :=
    State(0, 0, 2, Some(LOW_RUNS_DEDUP_TTL_MS), 0, [2], [Job(1, 1, Finished), Job(0, 1, Finished)],
          [Cleared(0), Low(0, 1), Depleted(0, 1)])

  lemma FirstUse()
    ensures Do(Do(Do(Do(Do(INITIAL, TopUp(2, 2)), Clear), Use), Step(0, true)), Step(0, true)) == ONE_LEFT
  {
    var s2 := Do(Do(INITIAL, TopUp(2, 2)), Clear);
    assert s2 == State(0, 2, 2, None, 0, [2], [], [Cleared(0)]);
    var s3 := Do(s2, Use);
    assert s3.jobs == [Job(1, 1, Queued)];
    assert Do(s3, Step(0, true)).jobs == [Job(1, 1, Claiming)];
  }

  lemma SecondUse()
    ensures Do(Do(Do(ONE_LEFT, Use), Step(1, true)), Tick(0)) == NONE_LEFT
  {
    var s := Do(ONE_LEFT, Use);
    assert s.jobs == [Job(1, 1, Finished), Job(0, 1, Queued)];
    assert Do(s, Step(1, true)).log == [Cleared(0), Low(0, 1), Depleted(0, 1)];
  }

  lemma UsedUp()
    ensures Run(INITIAL, USED_UP) == NONE_LEFT
  {
    hide Do, Run;
    FirstUse();
    SecondUse();
    RunOfEight(INITIAL, TopUp(2, 2), Clear, Use, Step(0, true), Step(0, true), Use, Step(1, true), Tick(0));
  }

  // With a reset that comes late, the second pack runs out with no low alert of its own, although it
  // held two runs and every dispatch finished and was sent.
  lemma LateResetSilencesLow()
    ensures var s := Run(Run(INITIAL, USED_UP), LATE_RESET);
      && s.starts == [2, 2] && |s.log| == 5 && s.log[3] == Depleted(1000, 2)
      && !LowBefore(s.log, 2, |s.log|)
  {
    hide Run;
    UsedUp();
    LateReset(NONE_LEFT, 1000);
    var s' := Run(NONE_LEFT, LATE_RESET);
    assert s'.log == [Cleared(0), Low(0, 1), Depleted(0, 1)] + [Depleted(1000, 2), Cleared(1000)];
  }

  // The key of the previous low alert still stands while the new pack runs out.
  lemma LateReset(s: State, elapsed: nat)
    requires s.balance == 0 && s.clears == 0 && KeyLive(s) && s.now + elapsed <= s.dedup.value
    ensures var j := |s.jobs|;
      var s' := Run(s, [TopUp(2, 2), Tick(elapsed), Use, Step(j, true), Step(j, true), Use, Step(j + 1, true), Clear]);
      var e := |s.starts| + 1;
      && s'.log == s.log + [Depleted(s.now + elapsed, e), Cleared(s.now + elapsed)]
      && s'.starts == s.starts + [2]
  {
    var j, e := |s.jobs|, |s.starts| + 1;
    var s1 := Do(s, TopUp(2, 2));
    var s2 := Do(s1, Tick(elapsed));
    var s3 := Do(s2, Use);
    assert s3.jobs == s.jobs + [Job(1, e, Queued)];
    var s4 := Do(s3, Step(j, true));
    assert s4 == s3.(jobs := s.jobs + [Job(1, e, Claiming)]);
    var s5 := Do(s4, Step(j, true));
    assert s5 == s3.(jobs := s.jobs + [Job(1, e, Finished)]);
    var s6 := Do(s5, Use);
    var s7 := Do(s6, Step(j + 1, true));
    assert s6.jobs[j + 1] == Job(0, e, Queued);
    var s8 := Do(s7, Clear);
    RunOfEight(s, TopUp(2, 2), Tick(elapsed), Use, Step(j, true), Step(j, true), Use, Step(j + 1, true), Clear);
    assert s8.log == s.log + [Depleted(s.now + elapsed, e), Cleared(s.now + elapsed)];
  }

  lemma RunOfFour(s: State, events: seq<Event>, a: Event, b: Event, c: Event, d: Event)
    ensures Run(s, events + [a, b, c, d]) == Do(Do(Do(Do(Run(s, events), a), b), c), d)
  {
    hide Do, Run;
    RunPush(s, events, a);
    RunPush(s, events + [a], b);
    RunPush(s, events + [a] + [b], c);
    RunPush(s, events + [a] + [b] + [c], d);
    assert events + [a] + [b] + [c] + [d] == events + [a, b, c, d];
  }

  lemma RunOfEight(s: State, a: Event, b: Event, c: Event, d: Event, e: Event, f: Event, g: Event, h: Event)
    ensures Run(s, [a, b, c, d, e, f, g, h]) == Do(Do(Do(Do(Do(Do(Do(Do(s, a), b), c), d), e), f), g), h)
  {
    hide Do;
    RunOfFour(s, [], a, b, c, d);
    RunOfFour(s, [a, b, c, d], e, f, g, h);
    assert [] + [a, b, c, d] == [a, b, c, d];
    assert [a, b, c, d] + [e, f, g, h] == [a, b, c, d, e, f, g, h];
  }

  lemma RunPush(s: State, events: seq<Event>, e: Event)
    ensures Run(s, events + [e]) == Do(Run(s, events), e)
  {
    assert (events + [e])[..|events|] == events;
  }
}
