/**
 Admission to the chat endpoint (app/agents/chat_rate_limit.py, app/api/deps.py and
 app/infra/db/repositories/chat_usage_repository.py): a sliding window per company, a
 counter of requests in progress, and a daily counter kept in the database.
 */
module ChatLimits {
  import opened Wrappers

  type CompanyId = int
  type RequestId = nat
  type Date = int

  const WINDOW: real := 60.0

  // ---------------------------------------------------------------- the sliding window

  /** `Crash` is the IndexError of reading the head of an empty deque. */
  datatype Decision = Admitted | Limited(wait: real) | Crash

  function Prune(hits: seq<real>, now: real): seq<real> {
    if hits != [] && hits[0] <= now - WINDOW then Prune(hits[1..], now) else hits
  }

  function Decide(pruned: seq<real>, limit: int, now: real): Decision {
    if |pruned| < limit then Admitted
    else if pruned == [] then Crash
    else Limited(pruned[0] + WINDOW - now)
  }

  function AfterCheck(hits: seq<real>, limit: int, now: real): seq<real> {
    var pruned := Prune(hits, now);
    if Decide(pruned, limit, now).Admitted? then pruned + [now] else pruned
  }

  /** RateLimited.retry_after: at least one second, truncated. */
  function RetryAfter(wait: real): int {
    var truncated := if wait < 0.0 then -(-wait).Floor else wait.Floor;
    if truncated < 1 then 1 else truncated
  }

  /** Entries of an admission history that satisfy `p`. */
  function Count(log: seq<real>, p: real -> bool): nat {
    if log == [] then 0 else Count(log[..|log| - 1], p) + if p(log[|log| - 1]) then 1 else 0
  }

  /** Admissions in the last 60 seconds before `now`, over the whole history. */
  function Recent(log: seq<real>, now: real): nat {
    Count(log, t => t > now - WINDOW)
  }

  ghost predicate Sorted(log: seq<real>) {
    forall i, j :: 0 <= i <= j < |log| ==> log[i] <= log[j]
  }

  /** The deque is what is left of the full history after dropping entries that had expired by `last`. */
  ghost predicate Tracks(hits: seq<real>, log: seq<real>, last: real) {
    && Sorted(log) && |hits| <= |log| && hits == log[|log| - |hits|..]
    && (forall i :: 0 <= i < |log| ==> log[i] <= last)
    && (forall i :: 0 <= i < |log| - |hits| ==> log[i] <= last - WINDOW)
  }

  lemma {:induction false} PruneTracks(hits: seq<real>, log: seq<real>, last: real, now: real)
    requires Tracks(hits, log, last) && last <= now
    ensures Tracks(Prune(hits, now), log, now) && |Prune(hits, now)| <= |hits|
    ensures Prune(hits, now) != [] ==> Prune(hits, now)[0] > now - WINDOW
    decreases |hits|
  {
    if hits != [] && hits[0] <= now - WINDOW {
      assert Tracks(hits[1..], log, now);
      PruneTracks(hits[1..], log, now, now);
    }
  }

  lemma {:induction false} CountSplits(a: seq<real>, b: seq<real>, p: real -> bool)
    ensures Count(a + b, p) == Count(a, p) + Count(b, p)
  {
    if b == [] {
      assert a + b == a;
    } else {
      var n := |b| - 1;
      assert (a + b)[..|a| + n] == a + b[..n];
      CountSplits(a, b[..n], p);
    }
  }

  lemma {:induction false} CountNone(log: seq<real>, p: real -> bool)
    requires forall i :: 0 <= i < |log| ==> !p(log[i])
    ensures Count(log, p) == 0
  {
    if log != [] {
      CountNone(log[..|log| - 1], p);
    }
  }

  lemma {:induction false} CountAll(log: seq<real>, p: real -> bool)
    ensures Count(log, p) <= |log|
    ensures (forall i :: 0 <= i < |log| ==> p(log[i])) ==> Count(log, p) == |log|
  {
    if log != [] {
      CountAll(log[..|log| - 1], p);
    }
  }

  /** When the entries after the first `k` are the ones in the window, they are what counts. */
  lemma {:induction false} RecentIsASuffix(log: seq<real>, k: nat, now: real)
    requires k <= |log|
    requires forall i :: 0 <= i < |log| ==> (log[i] > now - WINDOW <==> i >= k)
    ensures Recent(log, now) == |log| - k
  {
    if log != [] {
      RecentIsASuffix(log[..|log| - 1], if k == |log| then k - 1 else k, now);
    }
  }

  /** In clock order the pruned deque is exactly the last minute of the full history. */
  lemma PrunedIsRecent(hits: seq<real>, log: seq<real>, last: real, now: real)
    requires Tracks(hits, log, last) && last <= now
    ensures |Prune(hits, now)| == Recent(log, now)
  {
    PruneTracks(hits, log, last, now);
    var k := |log| - |Prune(hits, now)|;
    forall i | 0 <= i < |log| ensures log[i] > now - WINDOW <==> i >= k {
      if i >= k {
        assert log[k] == Prune(hits, now)[0] && log[k] <= log[i];
      }
    }
    RecentIsASuffix(log, k, now);
  }

  lemma AppendTracks(hits: seq<real>, log: seq<real>, now: real)
    requires Tracks(hits, log, now)
    ensures Tracks(hits + [now], log + [now], now)
  {
  }

  /**
   A call in clock order is admitted exactly when fewer than `limit` admissions of the whole
   history fall in its last minute, and the deque keeps tracking the history.
   */
  lemma CheckFollowsTheFullHistory(hits: seq<real>, log: seq<real>, last: real, limit: int, now: real)
    requires Tracks(hits, log, last) && last <= now
    ensures var d := Decide(Prune(hits, now), limit, now);
      (d.Admitted? <==> Recent(log, now) < limit)
      && Tracks(AfterCheck(hits, limit, now), if d.Admitted? then log + [now] else log, now)
  {
    PrunedIsRecent(hits, log, last, now);
    PruneTracks(hits, log, last, now);
    AppendTracks(Prune(hits, now), log, now);
  }

  /** The guard over a sequence of calls: the deque, all admissions, all decisions. */
  datatype Run = Run(hits: seq<real>, log: seq<real>, decisions: seq<Decision>)

  function Guard(calls: seq<real>, limit: int): Run {
    if calls == [] then Run([], [], [])
    else
      var before, now := Guard(calls[..|calls| - 1], limit), calls[|calls| - 1];
      var d := Decide(Prune(before.hits, now), limit, now);
      Run(AfterCheck(before.hits, limit, now), if d.Admitted? then before.log + [now] else before.log, before.decisions + [d])
  }

  /** Any `limit + 1` successive admissions span the window. */
  ghost predicate Spaced(log: seq<real>, limit: nat) {
    forall i :: 0 <= i < |log| - limit ==> log[i + limit] - log[i] >= WINDOW
  }

  lemma SpacedExtends(log: seq<real>, limit: nat, now: real)
    requires limit >= 1 && Sorted(log) && Spaced(log, limit) && Recent(log, now) < limit
    ensures Spaced(log + [now], limit)
  {
    if |log| >= limit {
      var k := |log| - limit;
      if log[k] > now - WINDOW {
        var p := (t: real) => t > now - WINDOW;
        assert log == log[..k] + log[k..];
        CountSplits(log[..k], log[k..], p);
        CountAll(log[k..], p);
      }
    }
  }

  /** What a run in clock order keeps: the deque tracks the history, whose entries are spaced. */
  ghost predicate Keeps(hits: seq<real>, log: seq<real>, last: real, limit: int) {
    Tracks(hits, log, last) && (limit >= 1 ==> Spaced(log, limit) && |hits| <= limit)
  }

  lemma CheckKeeps(hits: seq<real>, log: seq<real>, last: real, limit: int, now: real)
    requires Keeps(hits, log, last, limit) && last <= now
    ensures Keeps(AfterCheck(hits, limit, now), if Decide(Prune(hits, now), limit, now).Admitted? then log + [now] else log, now, limit)
  {
    CheckFollowsTheFullHistory(hits, log, last, limit, now);
    PruneTracks(hits, log, last, now);
    if limit >= 1 && Recent(log, now) < limit {
      SpacedExtends(log, limit, now);
    }
  }

  lemma {:induction false} GuardKeepsItsHistory(calls: seq<real>, limit: int)
    requires Sorted(calls)
    ensures var r := Guard(calls, limit);
      if calls == [] then r.hits == r.log == [] else Keeps(r.hits, r.log, calls[|calls| - 1], limit)
  {
    if calls != [] {
      var n := |calls| - 1;
      var now, before := calls[n], Guard(calls[..n], limit);
      GuardKeepsItsHistory(calls[..n], limit);
      CheckKeeps(before.hits, before.log, if n == 0 then now else calls[n - 1], limit, now);
    }
  }

  /** Every decision of a run in clock order goes by the full admission history. */
  lemma GuardAdmitsByTheFullHistory(calls: seq<real>, limit: int, now: real)
    requires Sorted(calls + [now])
    ensures var before, after := Guard(calls, limit), Guard(calls + [now], limit);
      && (after.decisions[|after.decisions| - 1].Admitted? <==> Recent(before.log, now) < limit)
      && after.log == if Recent(before.log, now) < limit then before.log + [now] else before.log
  {
    GuardStep(calls, limit, now);
    SortedFront(calls, now);
    GuardKeepsItsHistory(calls, limit);
    var before, last := Guard(calls, limit), if calls == [] then now else calls[|calls| - 1];
    assert Tracks(before.hits, before.log, last);
    CheckFollowsTheFullHistory(before.hits, before.log, last, limit, now);
  }

  lemma SortedFront(calls: seq<real>, now: real)
    requires Sorted(calls + [now])
    ensures Sorted(calls) && (calls != [] ==> calls[|calls| - 1] <= now)
  {
    assert forall i :: 0 <= i < |calls| ==> (calls + [now])[i] == calls[i];
    assert (calls + [now])[|calls|] == now;
  }

  /** Every 60-second window, half open at either end, holds at most `limit` admissions. */
  lemma WindowsHoldAtMostLimit(calls: seq<real>, limit: nat, inWindow: real -> bool)
    requires Sorted(calls) && limit >= 1
    requires forall x, y :: inWindow(x) && inWindow(y) ==> y - x < WINDOW
    ensures Count(Guard(calls, limit).log, inWindow) <= limit
  {
    GuardKeepsItsHistory(calls, limit);
    SpacedWindows(Guard(calls, limit).log, limit, inWindow);
  }

  lemma {:induction false} SpacedWindows(log: seq<real>, limit: nat, inWindow: real -> bool)
    requires Sorted(log) && Spaced(log, limit) && limit >= 1
    requires forall x, y :: inWindow(x) && inWindow(y) ==> y - x < WINDOW
    ensures Count(log, inWindow) <= limit
  {
    if log != [] {
      var n := |log| - 1;
      SpacedWindows(log[..n], limit, inWindow);
      if inWindow(log[n]) {
        LastInWindow(log, limit, inWindow);
      }
    }
  }

  lemma LastInWindow(log: seq<real>, limit: nat, inWindow: real -> bool)
    requires Sorted(log) && Spaced(log, limit) && limit >= 1 && log != [] && inWindow(log[|log| - 1])
    requires forall x, y :: inWindow(x) && inWindow(y) ==> y - x < WINDOW
    ensures Count(log, inWindow) <= limit
  {
    if |log| <= limit {
      CountAll(log, inWindow);
    } else {
      var k := |log| - limit;
      assert log[k - 1 + limit] - log[k - 1] >= WINDOW;
      forall i | 0 <= i < k ensures !inWindow(log[..k][i]) {
        assert log[i] <= log[k - 1];
      }
      CountNone(log[..k], inWindow);
      CountAll(log[k..], inWindow);
      CountSplits(log[..k], log[k..], inWindow);
      assert log == log[..k] + log[k..];
    }
  }

  /** With a positive limit the deque is never read empty; with any other limit every call crashes. */
  lemma {:induction false} CrashesIffNoLimit(calls: seq<real>, limit: int, i: nat)
    requires i < |calls|
    ensures |Guard(calls, limit).decisions| == |calls|
    ensures Guard(calls, limit).decisions[i].Crash? <==> limit <= 0
    ensures limit <= 0 ==> Guard(calls, limit).hits == []
    decreases |calls|
  {
    var n := |calls| - 1;
    if n > 0 {
      CrashesIffNoLimit(calls[..n], limit, if i < n then i else 0);
    }
  }

  /** A refusal names the earliest instant at which the same call would be admitted. */
  lemma WaitIsEarliestAdmission(hits: seq<real>, log: seq<real>, last: real, limit: nat, now: real, t: real)
    requires Tracks(hits, log, last) && last <= now && limit >= 1 && |hits| <= limit
    requires Decide(Prune(hits, now), limit, now).Limited? && now <= t
    ensures var wait := Decide(Prune(hits, now), limit, now).wait;
      0.0 < wait <= WINDOW && (Recent(log, t) < limit <==> t >= now + wait)
  {
    PruneTracks(hits, log, last, now);
    var pruned := Prune(hits, now);
    PrunedIsRecent(pruned, log, now, t);
    if pruned[0] > t - WINDOW {
      assert Prune(pruned, t) == pruned;
    } else {
      PruneTracks(pruned[1..], log[|log| - |pruned| + 1..], now, t);
      assert Prune(pruned, t) == Prune(pruned[1..], t);
    }
  }

  /** Retry-After is never early by a second, and is early at all only when the wait is not whole. */
  lemma RetryAfterFallsShortByLessThanASecond(wait: real)
    requires wait > 0.0
    ensures var after := RetryAfter(wait) as real;
      wait < after + 1.0 && (wait >= 1.0 ==> after <= wait) && (wait < 1.0 ==> after == 1.0)
  {
  }

  // ---------------------------------------------------------------- calls out of clock order

  lemma GuardStep(calls: seq<real>, limit: int, now: real)
    ensures var before := Guard(calls, limit); var d := Decide(Prune(before.hits, now), limit, now);
      Guard(calls + [now], limit)
      == Run(AfterCheck(before.hits, limit, now), if d.Admitted? then before.log + [now] else before.log, before.decisions + [d])
  {
    assert (calls + [now])[..|calls|] == calls;
  }

  lemma CountStep(log: seq<real>, p: real -> bool, t: real)
    ensures Count(log + [t], p) == Count(log, p) + if p(t) then 1 else 0
  {
    assert (log + [t])[..|log|] == log;
  }

  /** The clock is read before the lock is taken: a call may enter up to `d` seconds after one with a later reading. */
  ghost predicate AtMostLate(calls: seq<real>, d: real) {
    forall i, j :: 0 <= i < j < |calls| ==> calls[i] - calls[j] <= d
  }

  /** Admissions in the window that begins with `a`, and in the one that begins after it. */
  function From(log: seq<real>, a: real): nat {
    Count(log, t => a <= t < a + WINDOW)
  }

  function After(log: seq<real>, a: real): nat {
    Count(log, t => a < t <= a + WINDOW)
  }

  /** No 60-second window, half open at either end, holds more than `limit` admissions. */
  ghost predicate WindowsHold(log: seq<real>, limit: nat) {
    forall a: real :: From(log, a) <= limit && After(log, a) <= limit
  }

  lemma {:induction false} NothingIsAdmittedAtZero(calls: seq<real>)
    ensures Guard(calls, 0).log == []
  {
    if calls != [] {
      NothingIsAdmittedAtZero(calls[..|calls| - 1]);
    }
  }

  function Newest(log: seq<real>): seq<real> {
    if log == [] then [] else [log[|log| - 1]]
  }

  lemma OneAtATime(log: seq<real>, now: real)
    requires Sorted(log) && Spaced(log, 1)
    ensures var d := Decide(Prune(Newest(log), now), 1, now); var after := if d.Admitted? then log + [now] else log;
      Sorted(after) && Spaced(after, 1) && AfterCheck(Newest(log), 1, now) == Newest(after)
  {
    if log != [] {
      assert Newest(log)[1..] == [];
    }
  }

  /** With a limit of one the deque is the newest admission, whatever the order of entry. */
  lemma {:induction false} OneAtATimeIsSpaced(calls: seq<real>)
    ensures var r := Guard(calls, 1);
      Sorted(r.log) && Spaced(r.log, 1) && r.hits == Newest(r.log)
  {
    if calls != [] {
      OneAtATimeIsSpaced(calls[..|calls| - 1]);
      OneAtATime(Guard(calls[..|calls| - 1], 1).log, calls[|calls| - 1]);
    }
  }

  function Zeros(n: nat): (zeros: seq<real>)
    ensures |zeros| == n && forall i :: 0 <= i < n ==> zeros[i] == 0.0
  {
    if n == 0 then [] else Zeros(n - 1) + [0.0]
  }

  lemma {:induction false} PruneAllExpired(hits: seq<real>, now: real)
    requires forall i :: 0 <= i < |hits| ==> hits[i] <= now - WINDOW
    ensures Prune(hits, now) == []
  {
    if hits != [] {
      PruneAllExpired(hits[1..], now);
    }
  }

  lemma {:induction false} ZerosAreAdmitted(n: nat, limit: nat)
    requires n <= limit
    ensures Guard(Zeros(n), limit).hits == Zeros(n) && Guard(Zeros(n), limit).log == Zeros(n)
  {
    if n > 0 {
      ZerosAreAdmitted(n - 1, limit);
      GuardStep(Zeros(n - 1), limit, 0.0);
      assert Prune(Zeros(n - 1), 0.0) == Zeros(n - 1);
    }
  }

  /** A full burst at zero, a call one window later, and one that read the clock before it and enters after it. */
  function LateCalls(limit: nat, late: real): seq<real> {
    Zeros(limit) + [WINDOW] + [WINDOW - late]
  }

  lemma LateCallsAreAdmitted(limit: nat, late: real)
    requires limit >= 2 && 0.0 < late < WINDOW
    ensures Guard(LateCalls(limit, late), limit).log == LateCalls(limit, late)
  {
    ZerosAreAdmitted(limit, limit);
    PruneAllExpired(Zeros(limit), WINDOW);
    GuardStep(Zeros(limit), limit, WINDOW);
    var second := Guard(Zeros(limit) + [WINDOW], limit);
    assert second.hits == [WINDOW] && second.log == Zeros(limit) + [WINDOW];
    GuardStep(Zeros(limit) + [WINDOW], limit, WINDOW - late);
    assert Prune([WINDOW], WINDOW - late) == [WINDOW];
    assert Decide([WINDOW], limit, WINDOW - late).Admitted?;
  }

  lemma LateCallsInOneWindow(limit: nat, late: real, p: real -> bool)
    requires p(0.0) && !p(WINDOW) && p(WINDOW - late)
    ensures Count(LateCalls(limit, late), p) == limit + 1
  {
    CountAll(Zeros(limit), p);
    CountStep(Zeros(limit), p, WINDOW);
    CountStep(Zeros(limit) + [WINDOW], p, WINDOW - late);
  }

  /** Any lateness lets one more than the limit into the minute from zero, for every limit above one. */
  lemma LateCallsExceedTheLimit(limit: nat, late: real)
    requires limit >= 2 && 0.0 < late < WINDOW
    ensures AtMostLate(LateCalls(limit, late), late) && !WindowsHold(Guard(LateCalls(limit, late), limit).log, limit)
  {
    LateCallsAreAdmitted(limit, late);
    var log := LateCalls(limit, late);
    var a := 0.0;
    LateCallsInOneWindow(limit, late, t => a <= t < a + WINDOW);
    assert From(log, a) == limit + 1;
  }

  lemma SpacedLogsHold(log: seq<real>, limit: nat)
    requires Sorted(log) && Spaced(log, limit) && limit >= 1
    ensures WindowsHold(log, limit)
  {
    forall a: real ensures From(log, a) <= limit && After(log, a) <= limit {
      SpacedWindows(log, limit, t => a <= t < a + WINDOW);
      SpacedWindows(log, limit, t => a < t <= a + WINDOW);
    }
  }

  ghost predicate HoldsWhenAtMostLate(calls: seq<real>, limit: nat, d: real) {
    AtMostLate(calls, d) ==> WindowsHold(Guard(calls, limit).log, limit)
  }

  /** All runs whose calls are at most `d` late keep the windows if and only if none is late or the limit is below two. */
  lemma WindowsHoldIffInOrderOrOne(limit: nat, d: real)
    ensures (forall calls :: HoldsWhenAtMostLate(calls, limit, d)) <==> d <= 0.0 || limit <= 1
  {
    if d <= 0.0 || limit <= 1 {
      forall calls ensures HoldsWhenAtMostLate(calls, limit, d) {
        if limit == 0 {
          NothingIsAdmittedAtZero(calls);
        } else if limit == 1 {
          OneAtATimeIsSpaced(calls);
          SpacedLogsHold(Guard(calls, limit).log, limit);
        } else if AtMostLate(calls, d) {
          assert Sorted(calls);
          GuardKeepsItsHistory(calls, limit);
          SpacedLogsHold(Guard(calls, limit).log, limit);
        }
      }
    } else {
      var late := if d < 30.0 then d else 30.0;
      LateCallsExceedTheLimit(limit, late);
      assert AtMostLate(LateCalls(limit, late), d);
      assert !HoldsWhenAtMostLate(LateCalls(limit, late), limit, d);
    }
  }

  // ---------------------------------------------------------------- the request protocol

  /** Where a request is between passing the minute check and its end. */
  datatype Phase = Checked | Acquired | Handling | Releasing
  {
    predicate HoldsSlot() { !Checked? }
  }

  datatype Request = Request(cid: CompanyId, phase: Phase)

  /** `usage` is the stored daily counter, `handled` what reached the handler. */
  datatype State = State(
    active: map<CompanyId, int>, usage: map<(CompanyId, Date), nat>, handled: map<(CompanyId, Date), nat>,
    requests: map<RequestId, Request>)

  datatype Limits = Limits(concurrency: int, daily: nat)

  function Lookup(m: map<CompanyId, int>, c: CompanyId): int {
    if c in m then m[c] else 0
  }

  function Tally(m: map<(CompanyId, Date), nat>, k: (CompanyId, Date)): nat {
    if k in m then m[k] else 0
  }

  /** acquire on a defaultdict: the read itself creates the entry. */
  function AfterAcquire(active: map<CompanyId, int>, c: CompanyId, limit: int): map<CompanyId, int> {
    if Lookup(active, c) >= limit then active[c := Lookup(active, c)] else active[c := Lookup(active, c) + 1]
  }

  function AfterRelease(active: map<CompanyId, int>, c: CompanyId): map<CompanyId, int> {
    if Lookup(active, c) <= 1 then active - {c} else active[c := Lookup(active, c) - 1]
  }

  datatype Event =
    | PassMinute(r: RequestId, cid: CompanyId)
    | Acquire(r: RequestId)
    | CountDaily(r: RequestId, date: Date)
    | CountFails(r: RequestId)
    | HandlerEnds(r: RequestId)
    | Release(r: RequestId)

  predicate Enabled(s: State, e: Event) {
    match e
    case PassMinute(r, _) => r !in s.requests
    case Acquire(r) => r in s.requests && s.requests[r].phase.Checked?
    case CountDaily(r, _) => r in s.requests && s.requests[r].phase.Acquired?
    case CountFails(r) => r in s.requests && s.requests[r].phase.Acquired?
    case HandlerEnds(r) => r in s.requests && s.requests[r].phase.Handling?
    case Release(r) => r in s.requests && s.requests[r].phase.Releasing?
  }

  function Move(s: State, r: RequestId, p: Phase): State
    requires r in s.requests
  {
    s.(requests := s.requests[r := s.requests[r].(phase := p)])
  }

  /** One step of enforce_chat_limits.  A refusal at any limit, a database error and the handler's end all lead out. */
  function Apply(s: State, e: Event, limits: Limits): State
    requires Enabled(s, e)
  {
    match e
    case PassMinute(r, cid) => s.(requests := s.requests[r := Request(cid, Checked)])
    case Acquire(r) =>
      var cid := s.requests[r].cid;
      var s' := s.(active := AfterAcquire(s.active, cid, limits.concurrency));
      if Lookup(s.active, cid) >= limits.concurrency then s'.(requests := s.requests - {r}) else Move(s', r, Acquired)
    case CountDaily(r, date) =>
      var key := (s.requests[r].cid, date);
      var count := Tally(s.usage, key) + 1;
      var s' := s.(usage := s.usage[key := count]);
      if count > limits.daily then Move(s', r, Releasing)
      else Move(s', r, Handling).(handled := s.handled[key := Tally(s.handled, key) + 1])
    case CountFails(r) => Move(s, r, Releasing)
    case HandlerEnds(r) => Move(s, r, Releasing)
    case Release(r) => s.(active := AfterRelease(s.active, s.requests[r].cid), requests := s.requests - {r})
  }

  /** The company's requests that have acquired and not yet released. */
  function Holders(requests: map<RequestId, Request>, c: CompanyId): set<RequestId> {
    set r | r in requests && requests[r].cid == c && requests[r].phase.HoldsSlot()
  }

  function Min(a: int, b: int): int {
    if a < b then a else b
  }

  /** The counter is the number of holders and absent at zero; the handler saw exactly the first `daily` counted requests. */
  ghost predicate Inv(s: State, limits: Limits) {
    && (forall c :: Lookup(s.active, c) == |Holders(s.requests, c)|)
    && (forall c :: c in s.active ==> 1 <= s.active[c] <= limits.concurrency)
    && (forall k :: Tally(s.handled, k) == Min(Tally(s.usage, k), limits.daily))
  }

  lemma MoveKeepsHolders(requests: map<RequestId, Request>, r: RequestId, p: Phase, c: CompanyId)
    requires r in requests && requests[r].phase.HoldsSlot() && p.HoldsSlot()
    ensures Holders(requests[r := requests[r].(phase := p)], c) == Holders(requests, c)
  {
  }

  lemma RefusalKeepsInv(s: State, r: RequestId, limits: Limits)
    requires limits.concurrency >= 1 && Inv(s, limits) && Enabled(s, Acquire(r))
    requires Lookup(s.active, s.requests[r].cid) >= limits.concurrency
    ensures Inv(Apply(s, Acquire(r), limits), limits)
  {
    var s' := Apply(s, Acquire(r), limits);
    assert s'.active == s.active;
    forall c ensures Holders(s'.requests, c) == Holders(s.requests, c) {
    }
  }

  lemma GrantAddsHolder(requests: map<RequestId, Request>, r: RequestId, c: CompanyId)
    requires r in requests && requests[r].phase.Checked?
    ensures var after := requests[r := requests[r].(phase := Acquired)];
      |Holders(after, c)| == |Holders(requests, c)| + if c == requests[r].cid then 1 else 0
  {
    var after := requests[r := requests[r].(phase := Acquired)];
    if c == requests[r].cid {
      assert Holders(after, c) == Holders(requests, c) + {r};
    } else {
      assert Holders(after, c) == Holders(requests, c);
    }
  }

  lemma GrantKeepsInv(s: State, r: RequestId, limits: Limits)
    requires Inv(s, limits) && Enabled(s, Acquire(r))
    requires Lookup(s.active, s.requests[r].cid) < limits.concurrency
    ensures Inv(Apply(s, Acquire(r), limits), limits)
  {
    var s' := Apply(s, Acquire(r), limits);
    forall c ensures Lookup(s'.active, c) == |Holders(s'.requests, c)| {
      assert Lookup(s.active, c) == |Holders(s.requests, c)|;
      GrantAddsHolder(s.requests, r, c);
    }
  }

  lemma ReleaseRemovesHolder(requests: map<RequestId, Request>, r: RequestId, c: CompanyId)
    requires r in requests && requests[r].phase.HoldsSlot()
    ensures |Holders(requests - {r}, c)| == |Holders(requests, c)| - if c == requests[r].cid then 1 else 0
  {
    if c == requests[r].cid {
      assert r in Holders(requests, c);
      assert Holders(requests - {r}, c) == Holders(requests, c) - {r};
    } else {
      assert Holders(requests - {r}, c) == Holders(requests, c);
    }
  }

  lemma ReleaseKeepsInv(s: State, r: RequestId, limits: Limits)
    requires Inv(s, limits) && Enabled(s, Release(r))
    ensures Inv(Apply(s, Release(r), limits), limits)
  {
    var s', cid := Apply(s, Release(r), limits), s.requests[r].cid;
    forall c ensures Lookup(s'.active, c) == |Holders(s'.requests, c)| {
      assert Lookup(s.active, c) == |Holders(s.requests, c)|;
      ReleaseRemovesHolder(s.requests, r, c);
    }
  }

  lemma StepKeepsInv(s: State, e: Event, limits: Limits)
    requires limits.concurrency >= 1 && Inv(s, limits) && Enabled(s, e)
    ensures Inv(Apply(s, e, limits), limits)
  {
    var s' := Apply(s, e, limits);
    match e
    case Acquire(r) =>
      if Lookup(s.active, s.requests[r].cid) >= limits.concurrency {
        RefusalKeepsInv(s, r, limits);
      } else {
        GrantKeepsInv(s, r, limits);
      }
    case Release(r) => ReleaseKeepsInv(s, r, limits);
    case PassMinute(r, cid) =>
      assert forall c :: Holders(s'.requests, c) == Holders(s.requests, c);
    case CountDaily(r, date) =>
      var p := s'.requests[r].phase;
      forall c ensures Holders(s'.requests, c) == Holders(s.requests, c) {
        MoveKeepsHolders(s.requests, r, p, c);
      }
      var key := (s.requests[r].cid, date);
      forall k ensures Tally(s'.handled, k) == Min(Tally(s'.usage, k), limits.daily) {
        assert Tally(s.handled, k) == Min(Tally(s.usage, k), limits.daily);
      }
    case CountFails(r) =>
      forall c ensures Holders(s'.requests, c) == Holders(s.requests, c) {
        MoveKeepsHolders(s.requests, r, Releasing, c);
      }
    case HandlerEnds(r) =>
      forall c ensures Holders(s'.requests, c) == Holders(s.requests, c) {
        MoveKeepsHolders(s.requests, r, Releasing, c);
      }
  }

  ghost predicate IsRun(trace: seq<State>, events: seq<Event>, limits: Limits) {
    && |trace| == |events| + 1
    && forall i :: 0 <= i < |events| ==> Enabled(trace[i], events[i]) && trace[i + 1] == Apply(trace[i], events[i], limits)
  }

  /**
   In every interleaving the concurrency counter of a company equals its requests between
   acquire and release, stays within the cap and is absent when there are none; the requests
   of a company and date that reach the handler are the smaller of those counted and the cap.
   */
  lemma {:induction false} SlotsAndDailyCapHold(trace: seq<State>, events: seq<Event>, limits: Limits)
    requires limits.concurrency >= 1 && IsRun(trace, events, limits) && trace[0] == State(map[], map[], map[], map[])
    ensures Inv(trace[|events|], limits)
    ensures forall c :: c in trace[|events|].active <==> Holders(trace[|events|].requests, c) != {}
    ensures forall k :: Tally(trace[|events|].handled, k) <= limits.daily
  {
    if events == [] {
      assert forall c :: Holders(trace[0].requests, c) == {};
    } else {
      var n := |events| - 1;
      assert IsRun(trace[..n + 1], events[..n], limits);
      SlotsAndDailyCapHold(trace[..n + 1], events[..n], limits);
      StepKeepsInv(trace[n], events[n], limits);
    }
    var s := trace[|events|];
    forall c ensures c in s.active <==> Holders(s.requests, c) != {} {
      assert Lookup(s.active, c) == |Holders(s.requests, c)|;
      assert |Holders(s.requests, c)| == 0 <==> Holders(s.requests, c) == {};
    }
  }

  // ---------------------------------------------------------------- a whole request

  datatype Outcome = MinuteLimit(retryAfter: int) | ConcurrencyLimit | CountError | DailyLimit | Failed | Served

  /** The request reached the handler. */
  predicate Handled(o: Outcome) {
    o.Failed? || o.Served?
  }

  /** How the counters decide on a request that has passed the minute check. */
  ghost predicate Decides(s: State, c: CompanyId, date: Date, limits: Limits, o: Outcome) {
    && !o.MinuteLimit?
    && (o.ConcurrencyLimit? <==> |Holders(s.requests, c)| >= limits.concurrency)
    && (o.DailyLimit? ==> Tally(s.usage, (c, date)) >= limits.daily)
    && (Handled(o) ==> Tally(s.usage, (c, date)) < limits.daily)
  }

  /** The steps of a request with this outcome: the slot, and what follows once it has one. */
  function RequestEvents(r: RequestId, c: CompanyId, date: Date, o: Outcome): seq<Event> {
    [PassMinute(r, c), Acquire(r)] + EventsWithSlot(r, date, o)
  }

  function EventsWithSlot(r: RequestId, date: Date, o: Outcome): seq<Event> {
    match o
    case MinuteLimit(_) => []
    case ConcurrencyLimit => []
    case CountError => [CountFails(r), Release(r)]
    case DailyLimit => [CountDaily(r, date), Release(r)]
    case Failed => [CountDaily(r, date), HandlerEnds(r), Release(r)]
    case Served => [CountDaily(r, date), HandlerEnds(r), Release(r)]
  }

  /** The state after it: the slot is given back; the request is counted once it has a slot, and handled if it reached the handler. */
  function AfterRequest(s: State, c: CompanyId, date: Date, o: Outcome): State {
    var key := (c, date);
    s.(usage := if o.ConcurrencyLimit? || o.CountError? then s.usage else s.usage[key := Tally(s.usage, key) + 1],
       handled := if Handled(o) then s.handled[key := Tally(s.handled, key) + 1] else s.handled)
  }

  function WithRequest(s: State, r: RequestId, c: CompanyId, p: Phase): State {
    s.(requests := s.requests[r := Request(c, p)],
       active := if p.HoldsSlot() then s.active[c := Lookup(s.active, c) + 1] else s.active)
  }

  /** Taking a slot and giving it back leaves the counter as it was. */
  lemma SlotIsGivenBack(s: State, limits: Limits, r: RequestId, c: CompanyId)
    requires Inv(s, limits) && r !in s.requests
    ensures AfterRelease(s.active[c := Lookup(s.active, c) + 1], c) == s.active
    ensures s.requests[r := Request(c, Releasing)] - {r} == s.requests
    ensures s.requests[r := Request(c, Checked)] - {r} == s.requests
  {
    var taken := s.active[c := Lookup(s.active, c) + 1];
    assert Lookup(s.active, c) == |Holders(s.requests, c)|;
    assert taken - {c} == s.active - {c};
    assert c !in s.active ==> s.active - {c} == s.active;
  }

  lemma TakesASlot(s: State, limits: Limits, r: RequestId, c: CompanyId)
    requires limits.concurrency >= 1 && Inv(s, limits) && r !in s.requests
    ensures Enabled(s, PassMinute(r, c)) && Apply(s, PassMinute(r, c), limits) == WithRequest(s, r, c, Checked)
    ensures Enabled(WithRequest(s, r, c, Checked), Acquire(r))
    ensures Apply(WithRequest(s, r, c, Checked), Acquire(r), limits)
         == if |Holders(s.requests, c)| >= limits.concurrency then s else WithRequest(s, r, c, Acquired)
  {
    SlotIsGivenBack(s, limits, r, c);
    assert Lookup(s.active, c) == |Holders(s.requests, c)|;
    assert c in s.active ==> s.active[c := s.active[c]] == s.active;
    assert s.requests[r := Request(c, Checked)][r := Request(c, Acquired)] == s.requests[r := Request(c, Acquired)];
  }

  lemma Counts(s: State, limits: Limits, r: RequestId, c: CompanyId, date: Date, o: Outcome)
    requires r !in s.requests && Decides(s, c, date, limits, o)
    ensures var acquired, end := WithRequest(s, r, c, Acquired), AfterRequest(s, c, date, o);
      && (o.CountError? ==>
            Enabled(acquired, CountFails(r)) && Apply(acquired, CountFails(r), limits) == WithRequest(end, r, c, Releasing))
      && (o.DailyLimit? ==>
            Enabled(acquired, CountDaily(r, date)) && Apply(acquired, CountDaily(r, date), limits) == WithRequest(end, r, c, Releasing))
      && (Handled(o) ==>
            Enabled(acquired, CountDaily(r, date)) && Apply(acquired, CountDaily(r, date), limits) == WithRequest(end, r, c, Handling))
  {
    forall q: Phase
      ensures s.requests[r := Request(c, Acquired)][r := Request(c, q)] == s.requests[r := Request(c, q)]
    {
    }
  }

  /** From the end of its handling a request leaves the state as it was before it. */
  lemma Ends(s: State, limits: Limits, r: RequestId, c: CompanyId)
    requires Inv(s, limits) && r !in s.requests
    ensures var handling, leaving := WithRequest(s, r, c, Handling), WithRequest(s, r, c, Releasing);
      && Enabled(handling, HandlerEnds(r)) && Apply(handling, HandlerEnds(r), limits) == leaving
      && Enabled(leaving, Release(r)) && Apply(leaving, Release(r), limits) == s
  {
    SlotIsGivenBack(s, limits, r, c);
    assert s.requests[r := Request(c, Handling)][r := Request(c, Releasing)] == s.requests[r := Request(c, Releasing)];
  }

  lemma RequestKeepsInv(s: State, limits: Limits, r: RequestId, c: CompanyId, date: Date, o: Outcome)
    requires Inv(s, limits) && r !in s.requests && Decides(s, c, date, limits, o) && !o.ConcurrencyLimit?
    ensures Inv(AfterRequest(s, c, date, o), limits)
  {
    var key, end := (c, date), AfterRequest(s, c, date, o);
    forall k ensures Tally(end.handled, k) == Min(Tally(end.usage, k), limits.daily) {
      assert Tally(s.handled, k) == Min(Tally(s.usage, k), limits.daily);
    }
  }

  lemma RunsJoin(a: seq<State>, ea: seq<Event>, b: seq<State>, eb: seq<Event>, limits: Limits)
    requires IsRun(a, ea, limits) && IsRun(b, eb, limits) && a[|ea|] == b[0]
    ensures IsRun(a + b[1..], ea + eb, limits) && (a + b[1..])[|ea| + |eb|] == b[|eb|]
  {
    var trace, events := a + b[1..], ea + eb;
    forall i | 0 <= i < |events| ensures Enabled(trace[i], events[i]) && trace[i + 1] == Apply(trace[i], events[i], limits) {
      if i >= |ea| {
        assert trace[i] == b[i - |ea|] && trace[i + 1] == b[i + 1 - |ea|] && events[i] == eb[i - |ea|];
      }
    }
  }

  lemma WithASlot(s: State, limits: Limits, r: RequestId, c: CompanyId, date: Date, o: Outcome) returns (trace: seq<State>)
    requires Inv(s, limits) && r !in s.requests && Decides(s, c, date, limits, o) && !o.ConcurrencyLimit?
    ensures IsRun(trace, EventsWithSlot(r, date, o), limits)
    ensures trace[0] == WithRequest(s, r, c, Acquired) && trace[|EventsWithSlot(r, date, o)|] == AfterRequest(s, c, date, o)
  {
    var end := AfterRequest(s, c, date, o);
    RequestKeepsInv(s, limits, r, c, date, o);
    Counts(s, limits, r, c, date, o);
    Ends(end, limits, r, c);
    if Handled(o) {
      trace := [WithRequest(s, r, c, Acquired), WithRequest(end, r, c, Handling), WithRequest(end, r, c, Releasing), end];
    } else {
      trace := [WithRequest(s, r, c, Acquired), WithRequest(end, r, c, Releasing), end];
    }
  }

  /**
   Every whole request is a run of the interleaved steps, alone among whatever requests there
   are: it ends with the same requests and slots, counted and handled as its outcome says.
   */
  lemma RequestIsARun(s: State, limits: Limits, r: RequestId, c: CompanyId, date: Date, o: Outcome)
    returns (trace: seq<State>)
    requires limits.concurrency >= 1 && Inv(s, limits) && r !in s.requests && Decides(s, c, date, limits, o)
    ensures IsRun(trace, RequestEvents(r, c, date, o), limits)
    ensures trace[0] == s && trace[|trace| - 1] == AfterRequest(s, c, date, o)
  {
    TakesASlot(s, limits, r, c);
    var entry := [PassMinute(r, c), Acquire(r)];
    if o.ConcurrencyLimit? {
      trace := [s, WithRequest(s, r, c, Checked), s];
      assert RequestEvents(r, c, date, o) == entry;
    } else {
      var start := [s, WithRequest(s, r, c, Checked), WithRequest(s, r, c, Acquired)];
      var rest := WithASlot(s, limits, r, c, date, o);
      RunsJoin(start, entry, rest, EventsWithSlot(r, date, o), limits);
      trace := start + rest[1..];
    }
  }

  // ---------------------------------------------------------------- the guard object

  class InMemoryChatGuard {
    var hits: map<CompanyId, seq<real>>
    var active: map<CompanyId, int>

    constructor ()
      ensures hits == map[] && active == map[]
    {
      hits, active := map[], map[];
    }

    function Hits(c: CompanyId): seq<real>
      reads this
    {
      if c in hits then hits[c] else []
    }

    method CheckMinute(c: CompanyId, limit: int, now: real) returns (d: Decision)
      modifies this`hits
      ensures d == Decide(Prune(old(Hits(c)), now), limit, now)
      ensures hits == old(hits)[c := AfterCheck(old(Hits(c)), limit, now)]
    {
      var deque := Hits(c);
      while deque != [] && deque[0] <= now - WINDOW
        invariant Prune(deque, now) == Prune(old(Hits(c)), now)
        decreases |deque|
      {
        deque := deque[1..];
      }
      d := Decide(deque, limit, now);
      if d.Admitted? {
        deque := deque + [now];
      }
      hits := hits[c := deque];
    }

    method Acquire(c: CompanyId, limit: int) returns (ok: bool)
      modifies this`active
      ensures ok <==> Lookup(old(active), c) < limit
      ensures active == AfterAcquire(old(active), c, limit)
    {
      if c !in active {
        active := active[c := 0];
      }
      if active[c] >= limit {
        return false;
      }
      active := active[c := active[c] + 1];
      return true;
    }

    method Release(c: CompanyId)
      modifies this`active
      ensures active == AfterRelease(old(active), c)
    {
      var n := if c in active then active[c] else 0;
      if n <= 1 {
        active := map k | k in active && k != c :: active[k];
      } else {
        active := active[c := n - 1];
      }
    }
  }

  /** One request by itself: the dependency of the chat endpoint with the handler at its `yield`. */
  class ChatAdmission {
    const guard: InMemoryChatGuard
    var usage: map<(CompanyId, Date), nat>

    constructor (guard: InMemoryChatGuard)
      ensures this.guard == guard && usage == map[]
    {
      this.guard := guard;
      usage := map[];
    }

    method IncrAndGet(c: CompanyId, date: Date) returns (count: nat)
      modifies this`usage
      ensures count == Tally(old(usage), (c, date)) + 1 && usage == old(usage)[(c, date) := count]
    {
      count := if (c, date) in usage then usage[(c, date)] + 1 else 1;
      usage := usage[(c, date) := count];
    }

    /**
     Whatever the outcome, the slot is given back.  Only a request within all three limits is
     served, and one refused by an earlier limit is not counted against a later one.
     */
    method EnforceChatLimits(c: CompanyId, perMinute: int, limits: Limits, now: real, date: Date, countFails: bool, handlerFails: bool)
      returns (outcome: Outcome)
      requires perMinute >= 1 && limits.concurrency >= 1
      requires forall k :: k in guard.active ==> guard.active[k] >= 1
      modifies this`usage, guard
      ensures guard.active == old(guard.active)
      ensures guard.hits == old(guard.hits)[c := AfterCheck(old(guard.Hits(c)), perMinute, now)]
      ensures outcome ==
        var d := Decide(Prune(old(guard.Hits(c)), now), perMinute, now);
        if d.Limited? then MinuteLimit(RetryAfter(d.wait))
        else if Lookup(old(guard.active), c) >= limits.concurrency then ConcurrencyLimit
        else if countFails then CountError
        else if Tally(old(usage), (c, date)) >= limits.daily then DailyLimit
        else if handlerFails then Failed else Served
      ensures usage == if outcome.MinuteLimit? || outcome.ConcurrencyLimit? || outcome.CountError? then old(usage)
                       else old(usage)[(c, date) := Tally(old(usage), (c, date)) + 1]
    {
      ghost var before := guard.active;
      var d := guard.CheckMinute(c, perMinute, now);
      if d.Limited? {
        return MinuteLimit(RetryAfter(d.wait));
      }
      var ok := guard.Acquire(c, limits.concurrency);
      if !ok {
        assert guard.active == before;
        return ConcurrencyLimit;
      }
      if countFails {
        outcome := CountError;
      } else {
        var count := IncrAndGet(c, date);
        outcome := if count > limits.daily then DailyLimit else if handlerFails then Failed else Served;
      }
      guard.Release(c);
      assert guard.active == before;
    }
  }
}
