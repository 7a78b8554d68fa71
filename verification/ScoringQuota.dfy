/** The sliding-window limiter: at most sixty scoring jobs per user and hour, decided from a list
    that forgets everything outside the window. */
module ScoringQuota {
  type UserId = nat

  /** Per user, times in the order they were recorded. */
  type Times = map<UserId, seq<int>>

  const WINDOW_MS := 60 * 60 * 1000
  const MAX_JOBS_PER_WINDOW := 60

  /** The times less than a window before `now`, in order. */
  function InWindow(times: seq<int>, now: int): seq<int> {
    if times == [] then []
    else InWindow(times[..|times| - 1], now) +
         if now - times[|times| - 1] < WINDOW_MS then [times[|times| - 1]] else []
  }

  function TimesOf(jobs: Times, user: UserId): seq<int> {
    if user in jobs then jobs[user] else []
  }

  class Limiter {
    var recentJobs: Times

    constructor ()
      ensures recentJobs == map[]
    {
      recentJobs := map[];
    }

    /** Accepts unless sixty accepted jobs are in the window; either way the list is pruned. */
    method ConsumeScoringQuota(user: UserId, now: int) returns (accepted: bool)
      modifies this
      ensures (recentJobs, accepted) == Consume(old(recentJobs), user, now)
    {
      var known := if user in recentJobs then recentJobs[user] else [];
      var inWindow := [];
      for k := 0 to |known|
        invariant inWindow == InWindow(known[..k], now)
      {
        assert known[..k + 1][..k] == known[..k];
        if now - known[k] < WINDOW_MS {
          inWindow := inWindow + [known[k]];
        }
      }
      assert known[..|known|] == known;
      if |inWindow| >= MAX_JOBS_PER_WINDOW {
        recentJobs := recentJobs[user := inWindow];
        return false;
      }
      recentJobs := recentJobs[user := inWindow + [now]];
      return true;
    }
  }

  /** One call on the pruned lists. */
  function Consume(jobs: Times, user: UserId, now: int): (Times, bool) {
    var inWindow := InWindow(TimesOf(jobs, user), now);
    if |inWindow| >= MAX_JOBS_PER_WINDOW then (jobs[user := inWindow], false)
    else (jobs[user := inWindow + [now]], true)
  }

  // ---------------------------------------------------------------- against the whole history

  datatype Call = Call(user: UserId, now: int)

  /** The reference: every acceptance is kept for ever and the window is counted over all of them. */
  function Reference(history: Times, call: Call): (Times, bool) {
    if |InWindow(TimesOf(history, call.user), call.now)| >= MAX_JOBS_PER_WINDOW then (history, false)
    else (history[call.user := TimesOf(history, call.user) + [call.now]], true)
  }

  function PrunedDecisions(jobs: Times, calls: seq<Call>): (r: seq<bool>)
    ensures |r| == |calls|
    decreases |calls|
  {
    if calls == [] then []
    else var (jobs', accepted) := Consume(jobs, calls[0].user, calls[0].now);
      [accepted] + PrunedDecisions(jobs', calls[1..])
  }

  function ReferenceDecisions(history: Times, calls: seq<Call>): (r: seq<bool>)
    ensures |r| == |calls|
    decreases |calls|
  {
    if calls == [] then []
    else var (history', accepted) := Reference(history, calls[0]);
      [accepted] + ReferenceDecisions(history', calls[1..])
  }

  function HistoryAfter(history: Times, calls: seq<Call>): Times
    decreases |calls|
  {
    if calls == [] then history else HistoryAfter(Reference(history, calls[0]).0, calls[1..])
  }

  function JobsAfter(jobs: Times, calls: seq<Call>): Times
    decreases |calls|
  {
    if calls == [] then jobs else JobsAfter(Consume(jobs, calls[0].user, calls[0].now).0, calls[1..])
  }

  ghost predicate ClockRuns(from: int, calls: seq<Call>) {
    && (forall k :: 0 <= k < |calls| ==> from <= calls[k].now)
    && (forall j, k :: 0 <= j < k < |calls| ==> calls[j].now <= calls[k].now)
  }

  lemma {:induction false} WindowAppend(times: seq<int>, at: int, now: int)
    ensures InWindow(times + [at], now) == InWindow(times, now) + if now - at < WINDOW_MS then [at] else []
  {
    assert (times + [at])[..|times|] == times;
  }

  lemma EmptyWindow(now: int)
    ensures InWindow([], now) == []
  {
  }

  lemma WindowLength(times: seq<int>, at: int, now: int)
    ensures |InWindow(times + [at], now)| == |InWindow(times, now)| + if now - at < WINDOW_MS then 1 else 0
  {
    WindowAppend(times, at, now);
  }

  /** How many times `later` still counts although `now` had already dropped them. */
  function Forgotten(times: seq<int>, now: int, later: int): nat {
    if times == [] then 0
    else Forgotten(times[..|times| - 1], now, later) +
         if later - times[|times| - 1] < WINDOW_MS <= now - times[|times| - 1] then 1 else 0
  }

  /** A later look at a pruned list misses exactly the forgotten times. */
  lemma {:induction false} PruningForgets(times: seq<int>, now: int, later: int)
    ensures |InWindow(InWindow(times, now), later)| + Forgotten(times, now, later) == |InWindow(times, later)|
    ensures Forgotten(times, now, later) == 0 ==> InWindow(InWindow(times, now), later) == InWindow(times, later)
  {
    if times != [] {
      var times', last := times[..|times| - 1], times[|times| - 1];
      PruningForgets(times', now, later);
      if now - last < WINDOW_MS {
        WindowAppend(InWindow(times', now), last, later);
      } else {
        assert InWindow(times, now) == InWindow(times', now);
      }
    }
  }

  lemma {:induction false} NothingForgotten(times: seq<int>, now: int, later: int)
    ensures Forgotten(times, now, later) == 0 <==>
      forall k :: 0 <= k < |times| && later - times[k] < WINDOW_MS ==> now - times[k] < WINDOW_MS
  {
    if times != [] {
      var times', last := times[..|times| - 1], times[|times| - 1];
      NothingForgotten(times', now, later);
      assert times == times' + [last];
      assert forall k :: 0 <= k < |times'| ==> times'[k] == times[k];
    }
  }

  /** What has been dropped is not missed later exactly if every time the later window holds was
      within the window of the pruning too; under a clock that runs forward that is always so. */
  lemma {:induction false} PruningForgetsNothingIff(times: seq<int>, now: int, later: int)
    ensures InWindow(InWindow(times, now), later) == InWindow(times, later) <==>
      forall k :: 0 <= k < |times| && later - times[k] < WINDOW_MS ==> now - times[k] < WINDOW_MS
    ensures now <= later ==> InWindow(InWindow(times, now), later) == InWindow(times, later)
  {
    PruningForgets(times, now, later);
    NothingForgotten(times, now, later);
  }

  /** For every user the pruned list and the whole history show the same window from `clock` on. */
  ghost predicate SameWindows(jobs: Times, history: Times, clock: int) {
    forall user: UserId, now: int :: clock <= now ==>
      InWindow(TimesOf(jobs, user), now) == InWindow(TimesOf(history, user), now)
  }

  lemma {:induction false} StepKeepsWindows(jobs: Times, history: Times, clock: int, call: Call)
    requires SameWindows(jobs, history, clock) && clock <= call.now
    ensures Consume(jobs, call.user, call.now).1 == Reference(history, call).1
    ensures SameWindows(Consume(jobs, call.user, call.now).0, Reference(history, call).0, call.now)
  {
    var jobs', history' := Consume(jobs, call.user, call.now).0, Reference(history, call).0;
    forall user: UserId, now: int | call.now <= now
      ensures InWindow(TimesOf(jobs', user), now) == InWindow(TimesOf(history', user), now)
    {
      assert InWindow(TimesOf(jobs, user), now) == InWindow(TimesOf(history, user), now);
      if user == call.user {
        PruningForgetsNothingIff(TimesOf(jobs, user), call.now, now);
        WindowAppend(InWindow(TimesOf(jobs, user), call.now), call.now, now);
        WindowAppend(TimesOf(history, user), call.now, now);
      }
    }
  }

  lemma {:induction false} DecisionsAgree(jobs: Times, history: Times, clock: int, calls: seq<Call>)
    requires SameWindows(jobs, history, clock) && ClockRuns(clock, calls)
    ensures PrunedDecisions(jobs, calls) == ReferenceDecisions(history, calls)
    decreases |calls|
  {
    if calls != [] {
      StepKeepsWindows(jobs, history, clock, calls[0]);
      assert forall k :: 0 <= k < |calls[1..]| ==> calls[1..][k] == calls[k + 1];
      var jobs', history' := Consume(jobs, calls[0].user, calls[0].now).0, Reference(history, calls[0]).0;
      DecisionsAgree(jobs', history', calls[0].now, calls[1..]);
    }
  }

  /** From an empty limiter and under a clock that never runs backwards, the pruned lists decide
      every call as the whole history would. */
  lemma {:induction false} PrunedIsExact(calls: seq<Call>)
    requires forall j, k :: 0 <= j < k < |calls| ==> calls[j].now <= calls[k].now
    ensures PrunedDecisions(map[], calls) == ReferenceDecisions(map[], calls)
  {
    if calls != [] {
      DecisionsAgree(map[], map[], calls[0].now, calls);
    }
  }

  // ---------------------------------------------------------------- the bound

  /** Acceptances in the hour that ends at `t`. */
  function CountIn(times: seq<int>, t: int): nat {
    if times == [] then 0
    else CountIn(times[..|times| - 1], t) + if t - WINDOW_MS < times[|times| - 1] <= t then 1 else 0
  }

  ghost predicate Bounded(times: seq<int>) {
    forall t: int :: CountIn(times, t) <= MAX_JOBS_PER_WINDOW
  }

  lemma {:induction false} EarlierHourCountsLess(times: seq<int>, now: int, t: int)
    requires now <= t && forall k :: 0 <= k < |times| ==> times[k] <= now
    ensures CountIn(times, t) <= |InWindow(times, now)|
  {
    if times != [] {
      EarlierHourCountsLess(times[..|times| - 1], now, t);
    }
  }

  lemma {:induction false} AcceptanceKeepsBound(times: seq<int>, now: int)
    requires Bounded(times) && |InWindow(times, now)| < MAX_JOBS_PER_WINDOW
    requires forall k :: 0 <= k < |times| ==> times[k] <= now
    ensures Bounded(times + [now])
  {
    forall t: int
      ensures CountIn(times + [now], t) <= MAX_JOBS_PER_WINDOW
    {
      assert (times + [now])[..|times|] == times;
      assert CountIn(times, t) <= MAX_JOBS_PER_WINDOW;
      if now <= t {
        EarlierHourCountsLess(times, now, t);
      }
    }
  }

  /** Every user's acceptances are bounded in every hour, and none lies in the future. */
  ghost predicate HistoryBounded(history: Times, clock: int) {
    forall user :: user in history ==>
      Bounded(history[user]) && forall k :: 0 <= k < |history[user]| ==> history[user][k] <= clock
  }

  lemma {:induction false} HistoryStaysBounded(history: Times, clock: int, calls: seq<Call>)
    requires HistoryBounded(history, clock) && ClockRuns(clock, calls)
    ensures forall user :: user in HistoryAfter(history, calls) ==> Bounded(HistoryAfter(history, calls)[user])
    decreases |calls|
  {
    if calls != [] {
      var call := calls[0];
      var times := TimesOf(history, call.user);
      var history' := Reference(history, call).0;
      if |InWindow(times, call.now)| < MAX_JOBS_PER_WINDOW {
        AcceptanceKeepsBound(times, call.now);
      }
      assert HistoryBounded(history', call.now);
      assert forall k :: 0 <= k < |calls[1..]| ==> calls[1..][k] == calls[k + 1];
      HistoryStaysBounded(history', call.now, calls[1..]);
    }
  }

  /** A call touches no other user's list. */
  lemma OthersUntouched(jobs: Times, call: Call, other: UserId)
    requires other != call.user
    ensures TimesOf(Consume(jobs, call.user, call.now).0, other) == TimesOf(jobs, other)
  {
  }

  // ---------------------------------------------------------------- any clock

  /** The limiter accepts the `i`th call of the run. */
  predicate Accepted(calls: seq<Call>, i: nat)
    requires i < |calls|
  {
    Consume(JobsAfter(map[], calls[..i]), calls[i].user, calls[i].now).1
  }

  /** No later call of the same user was made a window or more after the `i`th. */
  predicate Kept(calls: seq<Call>, i: nat)
    requires i < |calls|
  {
    forall j :: i < j < |calls| && calls[j].user == calls[i].user ==> calls[j].now - calls[i].now < WINDOW_MS
  }

  /** The accepted ones among the first `m` calls of a user. */
  function Acceptances(calls: seq<Call>, m: nat, user: UserId): seq<int>
    requires m <= |calls|
  {
    if m == 0 then []
    else if calls[m - 1].user == user && Accepted(calls, m - 1) then
      Acceptances(calls, m - 1, user) + [calls[m - 1].now]
    else Acceptances(calls, m - 1, user)
  }

  /** Those of them that are kept. */
  function Remembered(calls: seq<Call>, m: nat, user: UserId): seq<int>
    requires m <= |calls|
  {
    if m == 0 then []
    else if calls[m - 1].user == user && Accepted(calls, m - 1) && Kept(calls, m - 1) then
      Remembered(calls, m - 1, user) + [calls[m - 1].now]
    else Remembered(calls, m - 1, user)
  }

  lemma {:induction false} JobsAfterLast(jobs: Times, calls: seq<Call>, call: Call)
    ensures JobsAfter(jobs, calls + [call]) == Consume(JobsAfter(jobs, calls), call.user, call.now).0
    decreases |calls|
  {
    hide Consume;
    if calls == [] {
      assert calls + [call] == [call] && [call][1..] == [];
    } else {
      assert (calls + [call])[1..] == calls[1..] + [call];
      JobsAfterLast(Consume(jobs, calls[0].user, calls[0].now).0, calls[1..], call);
    }
  }

  lemma AcceptedOfPrefix(calls: seq<Call>, call: Call, i: nat)
    requires i < |calls|
    ensures Accepted(calls + [call], i) == Accepted(calls, i)
  {
    assert (calls + [call])[..i] == calls[..i];
  }

  lemma LastAccepted(calls: seq<Call>, call: Call)
    ensures Accepted(calls + [call], |calls|) == Consume(JobsAfter(map[], calls), call.user, call.now).1
  {
    assert (calls + [call])[..|calls|] == calls;
  }

  lemma KeptAfter(calls: seq<Call>, call: Call, i: nat)
    requires i < |calls|
    ensures Kept(calls + [call], i) <==>
      Kept(calls, i) && (call.user == calls[i].user ==> call.now - calls[i].now < WINDOW_MS)
  {
    var calls' := calls + [call];
    assert calls'[|calls|] == call;
    assert forall j :: 0 <= j < |calls| ==> calls'[j] == calls[j];
  }

  /** One more call of the user prunes what was remembered. */
  lemma {:induction false} RememberedAfter(calls: seq<Call>, call: Call, m: nat, user: UserId)
    requires m <= |calls|
    ensures Remembered(calls + [call], m, user) ==
      if call.user == user then InWindow(Remembered(calls, m, user), call.now) else Remembered(calls, m, user)
  {
    hide Accepted, Kept, InWindow;
    if m == 0 {
      EmptyWindow(call.now);
    } else {
      RememberedAfter(calls, call, m - 1, user);
      AcceptedOfPrefix(calls, call, m - 1);
      KeptAfter(calls, call, m - 1);
      assert (calls + [call])[m - 1] == calls[m - 1];
      WindowAppend(Remembered(calls, m - 1, user), calls[m - 1].now, call.now);
    }
  }

  /** The pruned list is exactly the accepted calls no later call of that user was a window away from. */
  lemma {:induction false} PrunedIsRemembered(calls: seq<Call>, user: UserId)
    ensures TimesOf(JobsAfter(map[], calls), user) == Remembered(calls, |calls|, user)
    decreases |calls|
  {
    if calls != [] {
      var before, last := calls[..|calls| - 1], calls[|calls| - 1];
      assert calls == before + [last];
      PrunedIsRemembered(before, user);
      JobsAfterLast(map[], before, last);
      RememberedAfter(before, last, |before|, user);
      assert Kept(calls, |before|);
      LastAccepted(before, last);
    }
  }

  /** How many accepted calls of the user the window of `now` holds that the limiter has forgotten. */
  function ForgottenBy(calls: seq<Call>, m: nat, user: UserId, now: int): nat
    requires m <= |calls|
  {
    if m == 0 then 0
    else ForgottenBy(calls, m - 1, user, now) +
         if calls[m - 1].user == user && Accepted(calls, m - 1) && now - calls[m - 1].now < WINDOW_MS
            && !Kept(calls, m - 1)
         then 1 else 0
  }

  lemma {:induction false} RememberedMisses(calls: seq<Call>, m: nat, user: UserId, now: int)
    requires m <= |calls|
    ensures |InWindow(Remembered(calls, m, user), now)| + ForgottenBy(calls, m, user, now)
      == |InWindow(Acceptances(calls, m, user), now)|
  {
    hide Accepted, Kept, InWindow;
    if m == 0 {
      EmptyWindow(now);
    } else {
      RememberedMisses(calls, m - 1, user, now);
      WindowLength(Remembered(calls, m - 1, user), calls[m - 1].now, now);
      WindowLength(Acceptances(calls, m - 1, user), calls[m - 1].now, now);
    }
  }

  /** Whatever the clock did, a call is decided as the whole acceptance history would decide it
      exactly if the window holds fewer than sixty acceptances, or still sixty without those the
      limiter has forgotten. */
  lemma {:induction false} DecidesAlikeIff(calls: seq<Call>, call: Call)
    ensures var all := |InWindow(Acceptances(calls, |calls|, call.user), call.now)|;
      Consume(JobsAfter(map[], calls), call.user, call.now).1 == (all < MAX_JOBS_PER_WINDOW) <==>
        (all < MAX_JOBS_PER_WINDOW || all - ForgottenBy(calls, |calls|, call.user, call.now) >= MAX_JOBS_PER_WINDOW)
  {
    PrunedIsRemembered(calls, call.user);
    RememberedMisses(calls, |calls|, call.user, call.now);
  }

  // ---------------------------------------------------------------- the bound on the limiter itself

  lemma {:induction false} AcceptancesOfPrefix(calls: seq<Call>, call: Call, m: nat, user: UserId)
    requires m <= |calls|
    ensures Acceptances(calls + [call], m, user) == Acceptances(calls, m, user)
  {
    hide Accepted;
    if m > 0 {
      AcceptancesOfPrefix(calls, call, m - 1, user);
      AcceptedOfPrefix(calls, call, m - 1);
      assert (calls + [call])[m - 1] == calls[m - 1];
    }
  }

  lemma {:induction false} HistoryAfterLast(history: Times, calls: seq<Call>, call: Call)
    ensures HistoryAfter(history, calls + [call]) == Reference(HistoryAfter(history, calls), call).0
    decreases |calls|
  {
    hide Reference;
    if calls == [] {
      assert calls + [call] == [call] && [call][1..] == [];
    } else {
      assert (calls + [call])[1..] == calls[1..] + [call];
      HistoryAfterLast(Reference(history, calls[0]).0, calls[1..], call);
    }
  }

  /** Under a clock that never runs backwards the whole history is just what the limiter accepted. */
  lemma {:induction false} HistoryIsAccepted(calls: seq<Call>, user: UserId, clock: int)
    requires forall j, k :: 0 <= j < k < |calls| ==> calls[j].now <= calls[k].now
    requires calls != [] ==> calls[|calls| - 1].now <= clock
    ensures SameWindows(JobsAfter(map[], calls), HistoryAfter(map[], calls), clock)
    ensures TimesOf(HistoryAfter(map[], calls), user) == Acceptances(calls, |calls|, user)
    decreases |calls|
  {
    hide Consume, Reference, SameWindows, TimesOf, InWindow, HistoryAfter, JobsAfter, Accepted;
    if calls == [] {
      NothingIsSame(clock, user);
    } else {
      var before, last := calls[..|calls| - 1], calls[|calls| - 1];
      assert calls == before + [last];
      var jobs, history := JobsAfter(map[], before), HistoryAfter(map[], before);
      HistoryIsAccepted(before, user, last.now);
      StepKeepsWindows(jobs, history, last.now, last);
      JobsAfterLast(map[], before, last);
      HistoryAfterLast(map[], before, last);
      AcceptancesOfPrefix(before, last, |before|, user);
      LastAccepted(before, last);
      ReferenceAppends(history, last, user);
      LaterWindowsSame(JobsAfter(map[], calls), HistoryAfter(map[], calls), last.now, clock);
    }
  }

  lemma NothingIsSame(clock: int, user: UserId)
    ensures SameWindows(JobsAfter(map[], []), HistoryAfter(map[], []), clock)
    ensures TimesOf(HistoryAfter(map[], []), user) == []
  {
  }

  lemma ReferenceAppends(history: Times, call: Call, user: UserId)
    ensures TimesOf(Reference(history, call).0, user) ==
      if user == call.user && Reference(history, call).1 then TimesOf(history, user) + [call.now]
      else TimesOf(history, user)
  {
  }

  lemma LaterWindowsSame(jobs: Times, history: Times, clock: int, later: int)
    requires SameWindows(jobs, history, clock) && clock <= later
    ensures SameWindows(jobs, history, later)
  {
  }

  /** Under a clock that never runs backwards, no hour, wherever it ends, holds more than sixty jobs
      the limiter accepted for one user. */
  lemma {:induction false} AtMostSixtyPerHour(calls: seq<Call>, user: UserId, t: int)
    requires forall j, k :: 0 <= j < k < |calls| ==> calls[j].now <= calls[k].now
    ensures CountIn(Acceptances(calls, |calls|, user), t) <= MAX_JOBS_PER_WINDOW
  {
    if calls != [] {
      HistoryIsAccepted(calls, user, calls[|calls| - 1].now);
      HistoryStaysBounded(map[], calls[0].now, calls);
      assert user in HistoryAfter(map[], calls) ==> Bounded(HistoryAfter(map[], calls)[user]);
    }
  }

  // ---------------------------------------------------------------- a clock set back

  function Zeros(n: nat): seq<int> {
    seq(n, _ => 0)
  }

  lemma {:induction false} ZerosInWindow(n: nat, now: int)
    ensures InWindow(Zeros(n), now) == if now < WINDOW_MS then Zeros(n) else []
  {
    if n > 0 {
      assert Zeros(n)[..n - 1] == Zeros(n - 1);
      ZerosInWindow(n - 1, now);
      assert Zeros(n) == Zeros(n - 1) + [0];
    }
  }

  lemma {:induction false} BurstStep(jobs: Times, history: Times, done: nat)
    requires done < MAX_JOBS_PER_WINDOW
    requires TimesOf(jobs, 0) == Zeros(done) && TimesOf(history, 0) == Zeros(done)
    ensures TimesOf(Consume(jobs, 0, 0).0, 0) == Zeros(done + 1)
    ensures TimesOf(Reference(history, Call(0, 0)).0, 0) == Zeros(done + 1)
  {
    ZerosInWindow(done, 0);
    assert Zeros(done) + [0] == Zeros(done + 1);
  }

  /** A burst at time zero leaves its own times behind, in the pruned list and in the history. */
  lemma {:induction false} BurstFills(jobs: Times, history: Times, done: nat, burst: seq<Call>)
    requires done + |burst| <= MAX_JOBS_PER_WINDOW && forall k :: 0 <= k < |burst| ==> burst[k] == Call(0, 0)
    requires TimesOf(jobs, 0) == Zeros(done) && TimesOf(history, 0) == Zeros(done)
    ensures TimesOf(JobsAfter(jobs, burst), 0) == Zeros(done + |burst|)
    ensures TimesOf(HistoryAfter(history, burst), 0) == Zeros(done + |burst|)
    decreases |burst|
  {
    hide Consume, Reference, Zeros, TimesOf;
    if burst != [] {
      assert burst[0] == Call(0, 0);
      BurstStep(jobs, history, done);
      BurstFills(Consume(jobs, 0, 0).0, Reference(history, Call(0, 0)).0, done + 1, burst[1..]);
    }
  }

  lemma {:induction false} AnHourLater(jobs: Times, history: Times)
    requires TimesOf(jobs, 0) == Zeros(60) && TimesOf(history, 0) == Zeros(60)
    ensures Consume(jobs, 0, WINDOW_MS) == (jobs[0 := [WINDOW_MS]], true)
    ensures Reference(history, Call(0, WINDOW_MS)) == (history[0 := Zeros(60) + [WINDOW_MS]], true)
  {
    ZerosInWindow(60, WINDOW_MS);
    assert [] + [WINDOW_MS] == [WINDOW_MS];
  }

  lemma {:induction false} ClockGoesBack(jobs: Times, history: Times)
    requires TimesOf(jobs, 0) == [WINDOW_MS] && TimesOf(history, 0) == Zeros(60) + [WINDOW_MS]
    ensures Consume(jobs, 0, 1).1 && !Reference(history, Call(0, 1)).1
  {
    ZerosInWindow(60, 1);
    WindowAppend(Zeros(60), WINDOW_MS, 1);
    WindowAppend([], WINDOW_MS, 1);
    assert [] + [WINDOW_MS] == [WINDOW_MS];
  }

  /** The condition on the clock is needed: sixty jobs, one an hour later, then the clock set back.
      The pruned list has forgotten the sixty and accepts what the whole history refuses. */
  lemma {:induction false} ClockSetBackDiffers(burst: seq<Call>)
    requires |burst| == MAX_JOBS_PER_WINDOW && forall k :: 0 <= k < |burst| ==> burst[k] == Call(0, 0)
    ensures var jobs, history := JobsAfter(map[], burst), HistoryAfter(map[], burst);
      var rest := [Call(0, WINDOW_MS), Call(0, 1)];
      PrunedDecisions(jobs, rest)[1] && !ReferenceDecisions(history, rest)[1]
  {
    var jobs, history := JobsAfter(map[], burst), HistoryAfter(map[], burst);
    var rest := [Call(0, WINDOW_MS), Call(0, 1)];
    assert Zeros(0) == [];
    BurstFills(map[], map[], 0, burst);
    AnHourLater(jobs, history);
    ClockGoesBack(jobs[0 := [WINDOW_MS]], history[0 := Zeros(60) + [WINDOW_MS]]);
    hide Consume, Reference, JobsAfter, HistoryAfter, Zeros;
    assert rest[1..] == [Call(0, 1)];
  }
}
