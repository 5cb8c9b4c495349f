/** The sliding-window rate limiter: a pruned, expiring log of admissions per key. */
module RateLimit {
  import opened Common

  // One Redis sorted set: the scores in ascending order (members are unique per request), and the
  // time after which the key is gone. An empty set is an absent key.
  datatype Bucket = Bucket(scores: seq<int>, expireAt: int)

  datatype Reply = Reply(allowed: bool, remaining: int, resetAtMs: int) | ScriptError

  const EMPTY := Bucket([], 0)

  function Prune(scores: seq<int>, cutoff: int): seq<int> {
    if scores == [] then [] else
      (if scores[0] > cutoff then [scores[0]] else []) + Prune(scores[1..], cutoff)
  }

  function Insert(scores: seq<int>, now: int): seq<int> {
    if scores == [] || now < scores[0] then [now] + scores else [scores[0]] + Insert(scores[1..], now)
  }

  // What the key still holds when it is read.
  function Visible(b: Bucket, now: int): seq<int> {
    if now > b.expireAt then [] else b.scores
  }

  // The Lua script. With nothing in the window and a limit of 0 it asks for the oldest of no
  // entries and fails.
  function Check(b: Bucket, now: int, windowMs: int, limit: nat): (Bucket, Reply) {
    var kept := Prune(Visible(b, now), now - windowMs);
    var count := |kept|;
    if count >= limit then
      (Bucket(kept, if kept == [] then 0 else b.expireAt),
       if kept == [] then ScriptError else Reply(false, 0, kept[0] + windowMs))
    else
      var scores := Insert(kept, now);
      assert scores != [];
      (Bucket(scores, now + windowMs), Reply(true, limit - count - 1, scores[0] + windowMs))
  }

  // ------------------------------------------------------------------ the guard

  datatype LimitCheck = LimitCheck(key: string, limit: nat, windowMs: int)

  datatype Verdict =
    | Pass(header: Option<(LimitCheck, Reply)>)
    | TooMany(check: LimitCheck, reply: Reply)
    | Failed

  function Get(store: map<string, Bucket>, key: string): Bucket {
    if key in store then store[key] else EMPTY
  }

  // One check: the new store and the reply.
  function Consult(store: map<string, Bucket>, check: LimitCheck, now: int): (map<string, Bucket>, Reply) {
    var (b, reply) := Check(Get(store, check.key), now, check.windowMs, check.limit);
    (store[check.key := b], reply)
  }

  // The checks from the k-th on, each at its own clock reading, up to the first that does not admit.
  function RunChecks(store: map<string, Bucket>, checks: seq<LimitCheck>, clock: seq<int>, k: nat)
    : (r: (map<string, Bucket>, seq<Reply>))
    requires k <= |checks| == |clock|
    ensures |r.1| <= |checks| - k
    decreases |checks| - k
  {
    if k == |checks| then (store, []) else
      var (store', reply) := Consult(store, checks[k], clock[k]);
      if Admits(reply) then
        var (rest, replies) := RunChecks(store', checks, clock, k + 1);
        (rest, [reply] + replies)
      else (store', [reply])
  }

  predicate Admits(r: Reply) {
    r.Reply? && r.allowed
  }

  // The pair the headers are built from: replaced only by a strictly smaller remainder.
  function Stricter(best: Option<(LimitCheck, Reply)>, check: LimitCheck, reply: Reply): Option<(LimitCheck, Reply)>
    requires reply.Reply? && (best.Some? ==> best.value.1.Reply?)
  {
    if best.None? || reply.remaining < best.value.1.remaining then Some((check, reply)) else best
  }

  ghost predicate AllAdmit(replies: seq<Reply>) {
    forall i :: 0 <= i < |replies| ==> Admits(replies[i])
  }

  function BestOf(checks: seq<LimitCheck>, replies: seq<Reply>): (best: Option<(LimitCheck, Reply)>)
    requires |replies| <= |checks| && forall i :: 0 <= i < |replies| ==> replies[i].Reply?
    ensures best.Some? ==> best.value.1.Reply?
  {
    if replies == [] then None else
      var n := |replies| - 1;
      Stricter(BestOf(checks, replies[..n]), checks[n], replies[n])
  }

  ghost function VerdictFor(checks: seq<LimitCheck>, replies: seq<Reply>): Verdict
    requires |replies| <= |checks|
  {
    if AllAdmit(replies) then Pass(BestOf(checks, replies))
    else
      var n := |replies| - 1;
      if replies[n].ScriptError? then Failed else TooMany(checks[n], replies[n])
  }

  lemma StopVerdict(checks: seq<LimitCheck>, seen: seq<Reply>, reply: Reply)
    requires |seen| < |checks| && AllAdmit(seen) && !Admits(reply)
    ensures VerdictFor(checks, seen + [reply]) == if reply.ScriptError? then Failed else TooMany(checks[|seen|], reply)
  {
    assert (seen + [reply])[|seen|] == reply;
  }

  lemma BestPush(checks: seq<LimitCheck>, seen: seq<Reply>, reply: Reply)
    requires |seen| < |checks| && AllAdmit(seen) && Admits(reply)
    ensures AllAdmit(seen + [reply])
    ensures BestOf(checks, seen + [reply]) == Stricter(BestOf(checks, seen), checks[|seen|], reply)
  {
    assert (seen + [reply])[..|seen|] == seen;
  }

  // The reply with the least remaining, the earliest of equals.
  ghost predicate MostRestrictive(replies: seq<Reply>, at: nat)
    requires forall i :: 0 <= i < |replies| ==> replies[i].Reply?
  {
    && at < |replies|
    && (forall i :: 0 <= i < |replies| ==> replies[at].remaining <= replies[i].remaining)
    && (forall i :: 0 <= i < at ==> replies[at].remaining < replies[i].remaining)
  }

  lemma {:induction false} HeadersAreMostRestrictive(checks: seq<LimitCheck>, replies: seq<Reply>) returns (at: nat)
    requires 0 < |replies| <= |checks| && forall i :: 0 <= i < |replies| ==> replies[i].Reply?
    ensures MostRestrictive(replies, at) && BestOf(checks, replies) == Some((checks[at], replies[at]))
  {
    var n := |replies| - 1;
    if n == 0 {
      assert replies[..0] == [];
      at := 0;
    } else {
      at := HeadersAreMostRestrictive(checks, replies[..n]);
      assert forall i :: 0 <= i < n ==> replies[..n][i] == replies[i];
      if replies[n].remaining < replies[at].remaining {
        at := n;
      }
    }
  }

  class RateLimitGuard {
    var store: map<string, Bucket>

    constructor ()
      ensures store == map[]
    {
      store := map[];
    }

    method RunCheck(check: LimitCheck, now: int) returns (reply: Reply)
      modifies this
      ensures (store, reply) == Consult(old(store), check, now)
    {
      var bucket := Get(store, check.key);
      var scores := Visible(bucket, now);
      scores := Prune(scores, now - check.windowMs);
      var count := |scores|;
      if count >= check.limit {
        store := store[check.key := Bucket(scores, if scores == [] then 0 else bucket.expireAt)];
        if scores == [] {
          return ScriptError;
        }
        return Reply(false, 0, scores[0] + check.windowMs);
      }
      scores := Insert(scores, now);
      store := store[check.key := Bucket(scores, now + check.windowMs)];
      reply := Reply(true, check.limit - count - 1, scores[0] + check.windowMs);
    }

    // clock[i] is the time at which check i runs.
    method CanActivate(checks: seq<LimitCheck>, clock: seq<int>) returns (v: Verdict)
      requires |clock| == |checks|
      modifies this
      ensures var (after, replies) := RunChecks(old(store), checks, clock, 0);
        store == after && v == VerdictFor(checks, replies)
    {
      hide Consult;
      ghost var whole := RunChecks(store, checks, clock, 0);
      ghost var replies: seq<Reply> := [];
      var best: Option<(LimitCheck, Reply)> := None;
      for k := 0 to |checks|
        invariant |replies| == k && AllAdmit(replies)
        invariant var (after, more) := RunChecks(store, checks, clock, k);
          whole.0 == after && whole.1 == replies + more
        invariant best == BestOf(checks, replies)
      {
        var reply := RunCheck(checks[k], clock[k]);
        if Admits(reply) { BestPush(checks, replies, reply); } else { StopVerdict(checks, replies, reply); }
        if reply.ScriptError? {
          return Failed;
        }
        best := Stricter(best, checks[k], reply);
        if !reply.allowed {
          return TooMany(checks[k], reply);
        }
        replies := replies + [reply];
      }
      assert replies + [] == replies;
      v := Pass(best);
    }
  }

  // ------------------------------------------------------------------ one key, many requests

  datatype Request = Request(now: int, limit: nat)

  // The bucket and the times of all admissions so far.
  datatype Log = Log(bucket: Bucket, admitted: seq<int>)

  function Run(requests: seq<Request>, windowMs: int): Log {
    if requests == [] then Log(EMPTY, []) else
      var n := |requests| - 1;
      var log := Run(requests[..n], windowMs);
      var (b, reply) := Check(log.bucket, requests[n].now, windowMs, requests[n].limit);
      Log(b, if Admits(reply) then log.admitted + [requests[n].now] else log.admitted)
  }

  function Answer(requests: seq<Request>, windowMs: int, next: Request): Reply {
    Check(Run(requests, windowMs).bucket, next.now, windowMs, next.limit).1
  }

  ghost predicate InOrder(requests: seq<Request>) {
    forall i, j :: 0 <= i < j < |requests| ==> requests[i].now <= requests[j].now
  }

  // The admissions of the last windowMs before now.
  function Recent(admitted: seq<int>, now: int, windowMs: int): seq<int> {
    Prune(admitted, now - windowMs)
  }

  // ------------------------------------------------------------------ facts about pruning

  lemma {:induction false} PruneConcat(a: seq<int>, b: seq<int>, c: int)
    ensures Prune(a + b, c) == Prune(a, c) + Prune(b, c)
  {
    if a == [] {
      assert a + b == b;
    } else {
      assert (a + b)[0] == a[0] && (a + b)[1..] == a[1..] + b;
      PruneConcat(a[1..], b, c);
    }
  }

  lemma {:induction false} PruneMembers(s: seq<int>, c: int)
    ensures forall x :: x in Prune(s, c) ==> x in s && x > c
    ensures |Prune(s, c)| <= |s|
  {
    if s != [] {
      PruneMembers(s[1..], c);
    }
  }

  lemma PruneTwice(s: seq<int>, c: int, d: int)
    requires c <= d
    ensures Prune(Prune(s, c), d) == Prune(s, d)
  {
    if s != [] {
      PruneTwice(s[1..], c, d);
      PruneConcat(if s[0] > c then [s[0]] else [], Prune(s[1..], c), d);
    }
  }

  lemma PruneAll(s: seq<int>, c: int)
    requires forall x :: x in s ==> x <= c
    ensures Prune(s, c) == []
  {
    if s != [] {
      assert s[0] in s && forall x :: x in s[1..] ==> x in s;
      PruneAll(s[1..], c);
    }
  }

  lemma {:induction false} NothingPruned(s: seq<int>, c: int)
    requires forall x :: x in s ==> c < x
    ensures Prune(s, c) == s
  {
    if s != [] {
      assert s[0] in s && forall x :: x in s[1..] ==> x in s;
      NothingPruned(s[1..], c);
    }
  }

  lemma InsertLast(s: seq<int>, now: int)
    requires forall x :: x in s ==> x <= now
    ensures Insert(s, now) == s + [now]
  {
    if s != [] {
      assert s[0] in s && forall x :: x in s[1..] ==> x in s;
      InsertLast(s[1..], now);
    }
  }

  ghost predicate Ascending(s: seq<int>) {
    forall i, j :: 0 <= i < j < |s| ==> s[i] <= s[j]
  }

  // The first kept score is the oldest, and a window that starts at it loses it.
  lemma {:induction false} PruneAscending(s: seq<int>, c: int)
    requires Ascending(s)
    ensures Ascending(Prune(s, c))
    ensures forall d :: c <= d && Prune(s, c) != [] && Prune(s, c)[0] <= d ==> |Prune(s, d)| < |Prune(s, c)|
  {
    if s != [] {
      PruneAscending(s[1..], c);
      PruneMembers(s[1..], c);
      forall d | c <= d && Prune(s, c) != [] && Prune(s, c)[0] <= d
        ensures |Prune(s, d)| < |Prune(s, c)|
      {
        PruneTwice(s[1..], c, d);
        PruneMembers(Prune(s[1..], c), d);
      }
    }
  }

  // ------------------------------------------------------------------ refinement

  // Pruning and expiry never lose a live entry: at any later time the bucket shows exactly the
  // recent part of the full admission history.
  ghost predicate Faithful(log: Log, last: int, windowMs: int) {
    && Ascending(log.admitted)
    && (forall x :: x in log.admitted ==> x <= last)
    && forall now :: last <= now ==>
         Prune(Visible(log.bucket, now), now - windowMs) == Recent(log.admitted, now, windowMs)
  }

  lemma AdmissionKeepsFaith(log: Log, last: int, windowMs: int, next: Request)
    requires 0 < windowMs && Faithful(log, last, windowMs) && last <= next.now
    requires Admits(Check(log.bucket, next.now, windowMs, next.limit).1)
    ensures var b := Check(log.bucket, next.now, windowMs, next.limit).0;
      Faithful(Log(b, log.admitted + [next.now]), next.now, windowMs)
  {
    var b := Check(log.bucket, next.now, windowMs, next.limit).0;
    var kept, admitted := Recent(log.admitted, next.now, windowMs), log.admitted + [next.now];
    PruneMembers(log.admitted, next.now - windowMs);
    InsertLast(kept, next.now);
    assert b == Bucket(kept + [next.now], next.now + windowMs);
    AscendingPush(log.admitted, next.now);
    forall now | next.now <= now
      ensures Prune(Visible(b, now), now - windowMs) == Recent(admitted, now, windowMs)
    {
      AdmissionShows(log.admitted, next.now, windowMs, now);
    }
  }

  lemma AscendingPush(s: seq<int>, x: int)
    requires Ascending(s) && forall y :: y in s ==> y <= x
    ensures Ascending(s + [x])
  {
    assert forall i :: 0 <= i < |s| ==> s[i] in s;
  }

  lemma AdmissionShows(admitted: seq<int>, at: int, windowMs: int, now: int)
    requires 0 < windowMs && at <= now && forall x :: x in admitted ==> x <= at
    ensures var b := Bucket(Recent(admitted, at, windowMs) + [at], at + windowMs);
      Prune(Visible(b, now), now - windowMs) == Recent(admitted + [at], now, windowMs)
  {
    if now > at + windowMs {
      PruneAll(admitted + [at], now - windowMs);
    } else {
      PruneTwice(admitted, at - windowMs, now - windowMs);
      PruneConcat(admitted, [at], now - windowMs);
      PruneConcat(Recent(admitted, at, windowMs), [at], now - windowMs);
    }
  }

  lemma DenialKeepsFaith(log: Log, last: int, windowMs: int, next: Request)
    requires 0 < windowMs && Faithful(log, last, windowMs) && last <= next.now
    requires !Admits(Check(log.bucket, next.now, windowMs, next.limit).1)
    ensures Faithful(Log(Check(log.bucket, next.now, windowMs, next.limit).0, log.admitted), next.now, windowMs)
  {
    var b := Check(log.bucket, next.now, windowMs, next.limit).0;
    var kept := Recent(log.admitted, next.now, windowMs);
    assert b == Bucket(kept, if kept == [] then 0 else log.bucket.expireAt);
    forall now | next.now <= now
      ensures Prune(Visible(b, now), now - windowMs) == Recent(log.admitted, now, windowMs)
    {
      PruneTwice(log.admitted, next.now - windowMs, now - windowMs);
      if now > b.expireAt && kept != [] {
        assert Prune(Visible(log.bucket, now), now - windowMs) == Recent(log.admitted, now, windowMs);
      }
    }
  }

  function LastTime(requests: seq<Request>, default: int): int {
    if requests == [] then default else requests[|requests| - 1].now
  }

  lemma {:induction false} RunIsFaithful(requests: seq<Request>, windowMs: int, start: int)
    requires 0 < windowMs && InOrder(requests)
    ensures Faithful(Run(requests, windowMs), LastTime(requests, start), windowMs)
  {
    if requests != [] {
      var n := |requests| - 1;
      RunIsFaithful(requests[..n], windowMs, requests[n].now);
      var log, last := Run(requests[..n], windowMs), LastTime(requests[..n], requests[n].now);
      if Admits(Check(log.bucket, requests[n].now, windowMs, requests[n].limit).1) {
        AdmissionKeepsFaith(log, last, windowMs, requests[n]);
      } else {
        DenialKeepsFaith(log, last, windowMs, requests[n]);
      }
    }
  }

  // ------------------------------------------------------------------ what the limiter guarantees

  // The limiter admits exactly when fewer than the limit were admitted in the last windowMs.
  lemma AdmitsByRecentCount(requests: seq<Request>, windowMs: int, next: Request)
    requires 0 < windowMs && InOrder(requests + [next])
    ensures Admits(Answer(requests, windowMs, next))
       <==> |Recent(Run(requests, windowMs).admitted, next.now, windowMs)| < next.limit
  {
    assert requests == (requests + [next])[..|requests|];
    if requests != [] {
      assert (requests + [next])[|requests| - 1].now <= (requests + [next])[|requests|].now;
    }
    RunIsFaithful(requests, windowMs, next.now);
  }

  // How many admissions fall into (from, from + windowMs].
  function InWindow(admitted: seq<int>, from: int, windowMs: int): nat {
    if admitted == [] then 0 else
      var n := |admitted| - 1;
      InWindow(admitted[..n], from, windowMs) + (if from < admitted[n] <= from + windowMs then 1 else 0)
  }

  lemma {:induction false} WindowWithinRecent(admitted: seq<int>, from: int, windowMs: int, now: int)
    requires from < now <= from + windowMs
    ensures InWindow(admitted, from, windowMs) <= |Recent(admitted, now, windowMs)|
  {
    if admitted != [] {
      var n := |admitted| - 1;
      WindowWithinRecent(admitted[..n], from, windowMs, now);
      assert admitted == admitted[..n] + [admitted[n]];
      PruneConcat(admitted[..n], [admitted[n]], now - windowMs);
    }
  }

  lemma RunStep(before: seq<Request>, windowMs: int, next: Request)
    ensures Run(before + [next], windowMs).admitted
         == if Admits(Answer(before, windowMs, next)) then Run(before, windowMs).admitted + [next.now]
            else Run(before, windowMs).admitted
  {
    assert (before + [next])[..|before|] == before;
  }

  lemma InWindowPush(admitted: seq<int>, x: int, from: int, windowMs: int)
    ensures InWindow(admitted + [x], from, windowMs)
         == InWindow(admitted, from, windowMs) + (if from < x <= from + windowMs then 1 else 0)
  {
    assert (admitted + [x])[..|admitted|] == admitted;
  }

  // No window of length windowMs, wherever it starts, holds more admissions than the largest limit.
  lemma {:induction false} NoWindowOverflows(requests: seq<Request>, windowMs: int, limit: nat, from: int)
    requires 0 < windowMs && InOrder(requests)
    requires forall r :: r in requests ==> r.limit <= limit
    ensures InWindow(Run(requests, windowMs).admitted, from, windowMs) <= limit
  {
    if requests != [] {
      var n := |requests| - 1;
      var before, next := requests[..n], requests[n];
      assert requests == before + [next] && next in requests;
      NoWindowOverflows(before, windowMs, limit, from);
      AdmitsByRecentCount(before, windowMs, next);
      RunStep(before, windowMs, next);
      var admitted := Run(before, windowMs).admitted;
      InWindowPush(admitted, next.now, from, windowMs);
      if from < next.now <= from + windowMs {
        WindowWithinRecent(admitted, from, windowMs, next.now);
      }
    }
  }

  lemma {:induction false} RecentWithinLimit(requests: seq<Request>, windowMs: int, limit: nat, now: int)
    requires 0 < windowMs && InOrder(requests) && LastTime(requests, now) <= now
    requires forall r :: r in requests ==> r.limit <= limit
    ensures |Recent(Run(requests, windowMs).admitted, now, windowMs)| <= limit
  {
    RunIsFaithful(requests, windowMs, now);
    var admitted := Run(requests, windowMs).admitted;
    RecentIsWindow(admitted, windowMs, now);
    NoWindowOverflows(requests, windowMs, limit, now - windowMs);
  }

  lemma {:induction false} RecentIsWindow(admitted: seq<int>, windowMs: int, now: int)
    requires forall x :: x in admitted ==> x <= now
    ensures InWindow(admitted, now - windowMs, windowMs) == |Recent(admitted, now, windowMs)|
  {
    if admitted != [] {
      var n := |admitted| - 1;
      assert admitted[n] in admitted && forall x :: x in admitted[..n] ==> x in admitted;
      RecentIsWindow(admitted[..n], windowMs, now);
      assert admitted == admitted[..n] + [admitted[n]];
      PruneConcat(admitted[..n], [admitted[n]], now - windowMs);
    }
  }

  lemma OrderExtends(requests: seq<Request>, next: Request)
    ensures InOrder(requests + [next]) <==> InOrder(requests) && LastTime(requests, next.now) <= next.now
  {
    var all, n := requests + [next], |requests|;
    assert forall i :: 0 <= i < n ==> all[i] == requests[i];
    if InOrder(all) {
      if n > 0 { assert all[n - 1].now <= all[n].now; }
    }
    if InOrder(requests) && LastTime(requests, next.now) <= next.now {
      forall i, j | 0 <= i < j < |all| ensures all[i].now <= all[j].now {
        if j < n {
          assert requests[i].now <= requests[j].now;
        } else if i < n - 1 {
          assert requests[i].now <= requests[n - 1].now;
        }
      }
    }
  }

  // A denied caller is told a time within the next windowMs.
  lemma DenialNamesATime(requests: seq<Request>, windowMs: int, next: Request)
    requires 0 < windowMs && InOrder(requests + [next]) && 0 < next.limit
    requires !Admits(Answer(requests, windowMs, next))
    ensures var a, recent := Answer(requests, windowMs, next), Recent(Run(requests, windowMs).admitted, next.now, windowMs);
      && recent != [] && a == Reply(false, 0, recent[0] + windowMs)
      && next.now < a.resetAtMs <= next.now + windowMs
  {
    OrderExtends(requests, next);
    var log := Run(requests, windowMs);
    RunIsFaithful(requests, windowMs, next.now);
    PruneMembers(log.admitted, next.now - windowMs);
    var recent := Recent(log.admitted, next.now, windowMs);
    assert recent == Prune(Visible(log.bucket, next.now), next.now - windowMs);
    assert recent[0] in recent;
  }

  // The script fails exactly on a limit of 0 with nothing in the window.
  lemma FailsExactly(requests: seq<Request>, windowMs: int, next: Request)
    requires 0 < windowMs && InOrder(requests + [next])
    ensures Answer(requests, windowMs, next) == ScriptError
       <==> next.limit == 0 && Recent(Run(requests, windowMs).admitted, next.now, windowMs) == []
  {
    OrderExtends(requests, next);
    RunIsFaithful(requests, windowMs, next.now);
  }

  // The very first request under such a limit makes it fail.
  lemma FirstRequestFails(windowMs: int, now: int)
    requires 0 < windowMs
    ensures Answer([], windowMs, Request(now, 0)) == ScriptError
  {
    assert [] + [Request(now, 0)] == [Request(now, 0)];
    FailsExactly([], windowMs, Request(now, 0));
    assert Recent([], now, windowMs) == [];
  }

  // From that time on it is admitted, if nobody came between and no earlier limit was larger.
  lemma DeniedThenAdmitted(requests: seq<Request>, windowMs: int, next: Request, retry: Request)
    requires 0 < windowMs && InOrder(requests + [next]) && 0 < next.limit == retry.limit
    requires forall r :: r in requests ==> r.limit <= next.limit
    requires !Admits(Answer(requests, windowMs, next))
    requires Answer(requests, windowMs, next).Reply? && Answer(requests, windowMs, next).resetAtMs <= retry.now
    ensures Admits(Answer(requests + [next], windowMs, retry))
  {
    hide Check, Insert, InWindow, Faithful, Visible;
    OrderExtends(requests, next);
    OrderExtends(requests + [next], retry);
    DenialNamesATime(requests, windowMs, next);
    RunStep(requests, windowMs, next);
    RunIsFaithful(requests, windowMs, next.now);
    var admitted := Run(requests, windowMs).admitted;
    RecentWithinLimit(requests, windowMs, next.limit, next.now);
    PruneAscending(admitted, next.now - windowMs);
    AdmitsByRecentCount(requests + [next], windowMs, retry);
  }

  // ------------------------------------------------------------------ what an admitted caller is told

  // The limit less what was admitted in the window, this request included, and the time at which the
  // oldest of those leaves it.
  lemma AdmissionReply(requests: seq<Request>, windowMs: int, next: Request)
    requires 0 < windowMs && InOrder(requests + [next]) && Admits(Answer(requests, windowMs, next))
    ensures var recent := Recent(Run(requests, windowMs).admitted, next.now, windowMs);
      && Answer(requests, windowMs, next)
         == Reply(true, next.limit - |recent + [next.now]|, (recent + [next.now])[0] + windowMs)
      && |recent + [next.now]| <= next.limit
      && Recent(Run(requests + [next], windowMs).admitted, next.now, windowMs) == recent + [next.now]
  {
    hide Run, Insert, Ascending, InOrder;
    OrderExtends(requests, next);
    var log := Run(requests, windowMs);
    RunIsFaithful(requests, windowMs, next.now);
    var recent := Recent(log.admitted, next.now, windowMs);
    PruneMembers(log.admitted, next.now - windowMs);
    InsertLast(recent, next.now);
    RunStep(requests, windowMs, next);
    PruneConcat(log.admitted, [next.now], next.now - windowMs);
  }

  function Copies(r: Request, k: nat): (s: seq<Request>)
    ensures |s| == k && forall i :: 0 <= i < k ==> s[i] == r
  {
    seq(k, _ => r)
  }

  lemma {:induction false} BurstIsInOrder(requests: seq<Request>, next: Request, k: nat)
    requires InOrder(requests + [next])
    ensures InOrder(requests + [next] + Copies(next, k))
  {
    var all := requests + [next];
    var burst := all + Copies(next, k);
    forall i, j | 0 <= i < j < |burst| ensures burst[i].now <= burst[j].now {
      if j < |all| {
        assert all[i].now <= all[j].now;
      } else if i < |all| - 1 {
        assert all[i].now <= all[|all| - 1].now;
      }
    }
  }

  // The admissions of the window after k more of the same request at the same instant.
  lemma {:induction false} BurstFills(requests: seq<Request>, windowMs: int, next: Request, k: nat)
    requires 0 < windowMs && InOrder(requests + [next]) && Admits(Answer(requests, windowMs, next))
    ensures var recent := |Recent(Run(requests, windowMs).admitted, next.now, windowMs)|;
      |Recent(Run(requests + [next] + Copies(next, k), windowMs).admitted, next.now, windowMs)|
      == if recent + 1 + k < next.limit then recent + 1 + k else next.limit
  {
    hide Check, Insert, Visible, Prune, Run, Answer, InOrder;
    var first := requests + [next];
    AdmissionReply(requests, windowMs, next);
    if k == 0 {
      assert first + Copies(next, 0) == first;
    } else {
      var before := first + Copies(next, k - 1);
      assert first + Copies(next, k) == before + [next];
      BurstFills(requests, windowMs, next, k - 1);
      BurstIsInOrder(requests, next, k);
      AdmitsByRecentCount(before, windowMs, next);
      RunStep(before, windowMs, next);
      PruneConcat(Run(before, windowMs).admitted, [next.now], next.now - windowMs);
      NothingPruned([next.now], next.now - windowMs);
    }
  }

  // The remaining an admitted caller is told is how many more such requests are admitted at once.
  lemma RemainingIsExact(requests: seq<Request>, windowMs: int, next: Request, k: nat)
    requires 0 < windowMs && InOrder(requests + [next]) && Admits(Answer(requests, windowMs, next))
    ensures Admits(Answer(requests + [next] + Copies(next, k), windowMs, next))
       <==> k < Answer(requests, windowMs, next).remaining
  {
    hide Check, Insert, Visible, Prune, Run, Answer, InOrder;
    AdmissionReply(requests, windowMs, next);
    BurstFills(requests, windowMs, next, k);
    BurstIsInOrder(requests, next, k + 1);
    assert requests + [next] + Copies(next, k + 1) == requests + [next] + Copies(next, k) + [next];
    AdmitsByRecentCount(requests + [next] + Copies(next, k), windowMs, next);
  }

  // Until the reset time an admitted caller is told nothing leaves the window, and from then on less
  // is in it; that time is after now and at most one window away.
  lemma ResetFreesASlot(requests: seq<Request>, windowMs: int, next: Request, at: int)
    requires 0 < windowMs && InOrder(requests + [next]) && Admits(Answer(requests, windowMs, next)) && next.now <= at
    ensures var reset, admitted := Answer(requests, windowMs, next).resetAtMs, Run(requests + [next], windowMs).admitted;
      && next.now < reset <= next.now + windowMs
      && (at < reset ==> Recent(admitted, at, windowMs) == Recent(admitted, next.now, windowMs))
      && (reset <= at ==> |Recent(admitted, at, windowMs)| < |Recent(admitted, next.now, windowMs)|)
  {
    hide Check, Insert, Visible, Prune, Run;
    AdmissionReply(requests, windowMs, next);
    RunIsFaithful(requests + [next], windowMs, next.now);
    var admitted := Run(requests + [next], windowMs).admitted;
    var recent := Recent(admitted, next.now, windowMs);
    PruneAscending(admitted, next.now - windowMs);
    PruneMembers(admitted, next.now - windowMs);
    PruneTwice(admitted, next.now - windowMs, at - windowMs);
    assert recent[0] in recent && recent[|recent| - 1] in recent;
    if at < Answer(requests, windowMs, next).resetAtMs {
      forall x | x in recent ensures at - windowMs < x {
        var i :| 0 <= i < |recent| && recent[i] == x;
      }
      NothingPruned(recent, at - windowMs);
    }
  }

  // ------------------------------------------------------------------ a request with several checks

  ghost predicate KeysDiffer(checks: seq<LimitCheck>) {
    forall i, j :: 0 <= i < j < |checks| ==> checks[i].key != checks[j].key
  }

  // Each check is answered from its own key as it stood before the request.
  function OwnCheck(store: map<string, Bucket>, check: LimitCheck, now: int): (Bucket, Reply) {
    Check(Get(store, check.key), now, check.windowMs, check.limit)
  }

  // The first checks, n of them from the k-th on, have run.
  ghost predicate Ran(checks: seq<LimitCheck>, k: nat, n: nat, key: string) {
    exists j :: k <= j < k + n && j < |checks| && checks[j].key == key
  }

  // The checks run in order up to the first that does not admit, each against its own key as it stood;
  // the keys of those that ran are replaced and no other is touched.
  lemma {:induction false} ChecksAreIndependent(
    store: map<string, Bucket>, checks: seq<LimitCheck>, clock: seq<int>, k: nat)
    requires k <= |checks| == |clock| && KeysDiffer(checks)
    ensures var (after, replies) := RunChecks(store, checks, clock, k);
      && (forall j :: k <= j < k + |replies| ==> replies[j - k] == OwnCheck(store, checks[j], clock[j]).1)
      && (forall j :: k <= j < k + |replies| ==> Get(after, checks[j].key) == OwnCheck(store, checks[j], clock[j]).0)
      && (forall i :: 0 <= i < |replies| - 1 ==> Admits(replies[i]))
      && (|replies| < |checks| - k ==> replies != [] && !Admits(replies[|replies| - 1]))
      && (forall key :: !Ran(checks, k, |replies|, key) ==> Get(after, key) == Get(store, key))
    decreases |checks| - k
  {
    hide Check, Admits, Ran;
    if k < |checks| {
      var (store', reply) := Consult(store, checks[k], clock[k]);
      forall key | key != checks[k].key ensures Get(store', key) == Get(store, key) {}
      if Admits(reply) {
        ChecksAreIndependent(store', checks, clock, k + 1);
        var (after, more) := RunChecks(store', checks, clock, k + 1);
        var n := 1 + |more|;
        assert RunChecks(store, checks, clock, k) == (after, [reply] + more);
        forall j | k < j < k + n
          ensures OwnCheck(store', checks[j], clock[j]) == OwnCheck(store, checks[j], clock[j])
        {
          assert checks[k].key != checks[j].key;
        }
        forall key ensures Ran(checks, k, n, key) <==> key == checks[k].key || Ran(checks, k + 1, |more|, key) {
          RanFrom(checks, k, n, key);
        }
        NotRanLater(checks, k, |more|);
      } else {
        forall key ensures Ran(checks, k, 1, key) <==> key == checks[k].key || Ran(checks, k + 1, 0, key) {
          RanFrom(checks, k, 1, key);
        }
      }
    }
  }

  lemma RanFrom(checks: seq<LimitCheck>, k: nat, n: nat, key: string)
    requires k < |checks| && 0 < n
    ensures Ran(checks, k, n, key) <==> key == checks[k].key || Ran(checks, k + 1, n - 1, key)
  {}

  lemma NotRanLater(checks: seq<LimitCheck>, k: nat, n: nat)
    requires k < |checks| && KeysDiffer(checks)
    ensures !Ran(checks, k + 1, n, checks[k].key)
  {}

  // So a request passes exactly when every check admits it on its own.
  lemma PassesExactly(store: map<string, Bucket>, checks: seq<LimitCheck>, clock: seq<int>)
    requires |checks| == |clock| && KeysDiffer(checks)
    ensures VerdictFor(checks, RunChecks(store, checks, clock, 0).1).Pass?
       <==> forall i :: 0 <= i < |checks| ==> Admits(OwnCheck(store, checks[i], clock[i]).1)
  {
    hide Check, RunChecks;
    ChecksAreIndependent(store, checks, clock, 0);
    var replies := RunChecks(store, checks, clock, 0).1;
    if VerdictFor(checks, replies).Pass? {
      forall i | 0 <= i < |checks| ensures Admits(OwnCheck(store, checks[i], clock[i]).1) {
        assert replies[i - 0] == OwnCheck(store, checks[i], clock[i]).1;
      }
    } else {
      var i :| 0 <= i < |replies| && !Admits(replies[i]);
      assert replies[i - 0] == OwnCheck(store, checks[i], clock[i]).1;
    }
  }
}
