/** The watchdog: when a child is judged, how long a restart waits, and when the restart storm breaker opens. */
module Watchdog {
  import opened Prelude

  // ----- The restart loop -----

  /** A child's exit: whether it was ever healthy, and the time read after it. */
  datatype Exit = Exit(healthy: bool, now: int)

  function Max(a: int, b: int): (r: int)
    ensures r >= a && r >= b && (r == a || r == b)
  {
    if a >= b then a else b
  }

  function Min(a: int, b: int): (r: int)
    ensures r <= a && r <= b && (r == a || r == b)
  {
    if a <= b then a else b
  }

  function Pow2(k: nat): nat {
    if k == 0 then 1 else 2 * Pow2(k - 1)
  }

  /** The times of the never-healthy exits since the last healthy one. */
  function SinceHealthy(history: seq<Exit>): seq<int> {
    if history == [] then []
    else
      var last := history[|history| - 1];
      if last.healthy then [] else SinceHealthy(history[..|history| - 1]) + [last.now]
  }

  function Within(times: seq<int>, now: int, window: int): seq<int> {
    if times == [] then []
    else
      var t := times[|times| - 1];
      var before := Within(times[..|times| - 1], now, window);
      if now - t <= window then before + [t] else before
  }

  /** Of those, the ones that lie within the window before the last exit. */
  function InWindow(history: seq<Exit>, window: int): seq<int> {
    if history == [] then [] else Within(SinceHealthy(history), history[|history| - 1].now, window)
  }

  /** The delay after k never-healthy exits in a row. */
  function Backoff(base: int, cap: int, k: nat): int {
    if k == 0 then base else Min(base * Pow2(k), cap)
  }

  predicate Storm(history: seq<Exit>, window: int, limit: int) {
    history != [] && !history[|history| - 1].healthy && |InWindow(history, window)| >= limit
  }

  // ----- The incremental list against the whole history -----

  /** The streak: all exits since the last healthy one, or since the beginning. */
  lemma {:induction false} StreakSinceHealthy(history: seq<Exit>, k: nat)
    requires k <= |history| && (k > 0 ==> history[k - 1].healthy)
    requires forall i :: k <= i < |history| ==> !history[i].healthy
    ensures |SinceHealthy(history)| == |history| - k
    ensures forall i :: 0 <= i < |SinceHealthy(history)| ==> SinceHealthy(history)[i] == history[k + i].now
  {
    if k < |history| {
      StreakSinceHealthy(history[..|history| - 1], k);
    }
  }

  /** Of the times those are kept, in order, that are not more than the window ago. */
  lemma {:induction false} WithinFilters(times: seq<int>, now: int, window: int)
    ensures Within(times, now, window) == Filtered(times, t => now - t <= window)
  {
    if times != [] {
      WithinFilters(times[..|times| - 1], now, window);
    }
  }

  /** The list that the loop keeps over one streak: pruned at every exit, with that exit added. */
  function Pruned(times: seq<int>, window: int): seq<int> {
    if times == [] then []
    else Within(Pruned(times[..|times| - 1], window), times[|times| - 1], window) + [times[|times| - 1]]
  }

  /** No exit that lies within the window of the last one was outside the window of one in between. */
  ghost predicate NeverForgotten(times: seq<int>, window: int) {
    forall i, j :: 0 <= i < j < |times| && times[|times| - 1] - times[i] <= window ==> times[j] - times[i] <= window
  }

  ghost predicate Nondecreasing(times: seq<int>) {
    forall i, j :: 0 <= i <= j < |times| ==> times[i] <= times[j]
  }

  lemma ForwardClockForgetsNothing(times: seq<int>, window: int)
    requires Nondecreasing(times)
    ensures NeverForgotten(times, window)
  {
  }

  lemma WithinSnoc(times: seq<int>, t: int, now: int, window: int)
    ensures Within(times + [t], now, window) ==
      if now - t <= window then Within(times, now, window) + [t] else Within(times, now, window)
  {
    assert (times + [t])[..|times|] == times;
  }

  /** Exit i has been within the window of every exit after it. */
  ghost predicate Survives(times: seq<int>, i: nat, window: int)
    requires i < |times|
  {
    forall j :: i < j < |times| ==> times[j] - times[i] <= window
  }

  /** Those of the first m exits that survive. */
  ghost function Survivors(times: seq<int>, m: nat, window: int): seq<int>
    requires m <= |times|
  {
    if m == 0 then []
    else Survivors(times, m - 1, window) + if Survives(times, m - 1, window) then [times[m - 1]] else []
  }

  lemma SurvivesSnoc(times: seq<int>, t: int, i: nat, window: int)
    requires i < |times|
    ensures Survives(times + [t], i, window) <==> Survives(times, i, window) && t - times[i] <= window
  {
    if Survives(times + [t], i, window) {
      assert (times + [t])[|times|] - (times + [t])[i] <= window;
      forall j | i < j < |times| ensures times[j] - times[i] <= window {
        assert (times + [t])[j] - (times + [t])[i] <= window;
      }
    }
  }

  /** Pruning by one more exit takes off those outside its window. */
  lemma {:induction false} PruneSurvivors(times: seq<int>, t: int, m: nat, window: int)
    requires m <= |times|
    ensures Within(Survivors(times, m, window), t, window) == Survivors(times + [t], m, window)
  {
    if m > 0 {
      PruneSurvivors(times, t, m - 1, window);
      SurvivesSnoc(times, t, m - 1, window);
      var before := Survivors(times, m - 1, window);
      if Survives(times, m - 1, window) {
        WithinSnoc(before, times[m - 1], t, window);
      } else {
        assert before + [] == before;
      }
      assert Survivors(times + [t], m - 1, window) + [] == Survivors(times + [t], m - 1, window);
    }
  }

  lemma {:induction false} PrunedIsSurvivors(times: seq<int>, window: int)
    ensures Pruned(times, window) == Survivors(times, |times|, window)
  {
    if times != [] {
      var init, t := times[..|times| - 1], times[|times| - 1];
      PrunedIsSurvivors(init, window);
      PruneSurvivors(init, t, |init|, window);
      assert times == init + [t];
    }
  }

  /** Of the first m exits, those within the window of the last one have survived. */
  ghost predicate AllSurvive(times: seq<int>, m: nat, window: int)
    requires m <= |times| && times != []
  {
    forall i :: 0 <= i < m && times[|times| - 1] - times[i] <= window ==> Survives(times, i, window)
  }

  lemma SurvivorWithin(times: seq<int>, i: nat, window: int)
    requires i < |times| && window >= 0 && Survives(times, i, window)
    ensures times[|times| - 1] - times[i] <= window
  {
    if i < |times| - 1 {
      assert times[|times| - 1] - times[i] <= window;
    }
  }

  /** The survivors are among those within the last window, and as many as these exactly when they are all of these. */
  lemma {:induction false} SurvivorsFewer(times: seq<int>, m: nat, window: int)
    requires m <= |times| && times != [] && window >= 0
    ensures var survivors, within := Survivors(times, m, window), Within(times[..m], times[|times| - 1], window);
      && |survivors| <= |within|
      && (AllSurvive(times, m, window) ==> survivors == within)
      && (!AllSurvive(times, m, window) ==> |survivors| < |within|)
  {
    if m > 0 {
      SurvivorsFewer(times, m - 1, window);
      assert times[..m] == times[..m - 1] + [times[m - 1]];
      WithinSnoc(times[..m - 1], times[m - 1], times[|times| - 1], window);
      if Survives(times, m - 1, window) {
        SurvivorWithin(times, m - 1, window);
      }
      assert AllSurvive(times, m, window) <==>
        AllSurvive(times, m - 1, window) &&
        (times[|times| - 1] - times[m - 1] <= window ==> Survives(times, m - 1, window));
    }
  }

  /**
   * The pruned list is the list of the whole streak within the last window exactly when no exit of that window was
   * outside the window of one in between; otherwise it is shorter. It is never longer.
   */
  lemma PrunedIsWholeHistoryIff(times: seq<int>, window: int)
    requires times != [] && window >= 0
    ensures var now := times[|times| - 1];
      && (Pruned(times, window) == Within(times, now, window) <==> NeverForgotten(times, window))
      && (|Pruned(times, window)| < |Within(times, now, window)| <==> !NeverForgotten(times, window))
  {
    PrunedIsSurvivors(times, window);
    SurvivorsFewer(times, |times|, window);
    assert times[..|times|] == times;
    if NeverForgotten(times, window) {
      forall i | 0 <= i < |times| && times[|times| - 1] - times[i] <= window ensures Survives(times, i, window) {
      }
    } else {
      var i, j :| 0 <= i < j < |times| && times[|times| - 1] - times[i] <= window && times[j] - times[i] > window;
      assert !Survives(times, i, window);
    }
  }

  /** Doubling the capped delay is capping the doubled one. */
  lemma BackoffStep(base: int, cap: int, k: nat)
    requires cap >= 0
    ensures Min(Backoff(base, cap, k) * 2, cap) == Backoff(base, cap, k + 1)
  {
    assert base * Pow2(k + 1) == base * Pow2(k) * 2;
  }

  /** What the breaker counts at the last exit of a history. */
  function Counted(history: seq<Exit>, window: int): seq<int> {
    Pruned(SinceHealthy(history), window)
  }

  predicate Trips(history: seq<Exit>, window: int, limit: int) {
    history != [] && !history[|history| - 1].healthy && |Counted(history, window)| >= limit
  }

  /** The breaker never trips without a storm, and misses none while its streak forgets nothing. */
  lemma TripsIsStorm(history: seq<Exit>, window: int, limit: int)
    requires window >= 0
    ensures Trips(history, window, limit) ==> Storm(history, window, limit)
    ensures NeverForgotten(SinceHealthy(history), window) ==>
      (Trips(history, window, limit) <==> Storm(history, window, limit))
  {
    if history != [] && !history[|history| - 1].healthy {
      PrunedIsWholeHistoryIff(SinceHealthy(history), window);
    }
  }

  /** For every count that the breaker gets wrong there is a limit at which it misses the storm. */
  lemma StormMissedIffForgotten(history: seq<Exit>, window: int)
    requires history != [] && !history[|history| - 1].healthy && window >= 0
    ensures (exists limit :: Storm(history, window, limit) && !Trips(history, window, limit)) <==>
      !NeverForgotten(SinceHealthy(history), window)
  {
    PrunedIsWholeHistoryIff(SinceHealthy(history), window);
    if !NeverForgotten(SinceHealthy(history), window) {
      assert Storm(history, window, |InWindow(history, window)|) &&
        !Trips(history, window, |InWindow(history, window)|);
    }
  }

  method Prune(times: seq<int>, now: int, window: int) returns (kept: seq<int>)
    ensures kept == Within(times, now, window)
  {
    kept := [];
    for i := 0 to |times|
      invariant kept == Within(times[..i], now, window)
    {
      assert times[..i + 1][..i] == times[..i];
      if now - times[i] <= window {
        kept := kept + [times[i]];
      }
    }
    assert times[..|times|] == times;
  }

  /** The list and the delay kept by the loop, against the whole history. */
  ghost predicate Tracks(history: seq<Exit>, base: int, cap: int, window: int, times: seq<int>, delay: int) {
    times == Counted(history, window) && delay == Backoff(base, cap, |SinceHealthy(history)|)
  }

  lemma TracksHealthy(history: seq<Exit>, exit: Exit, base: int, cap: int, window: int)
    requires exit.healthy
    ensures Tracks(history + [exit], base, cap, window, [], base)
  {
  }

  lemma TracksUnhealthy(history: seq<Exit>, exit: Exit, base: int, cap: int, window: int, times: seq<int>, delay: int)
    requires !exit.healthy && cap >= 0
    requires Tracks(history, base, cap, window, times, delay)
    ensures Tracks(history + [exit], base, cap, window, Within(times, exit.now, window) + [exit.now],
      Min(delay * 2, cap))
  {
    var streak := SinceHealthy(history);
    assert (history + [exit])[..|history|] == history;
    assert (streak + [exit.now])[..|streak|] == streak;
    BackoffStep(base, cap, |streak|);
  }

  /**
   * The breaker has not tripped at any of the first exits, and after each there was the delay that its history asks
   * for.
   */
  ghost predicate Waited(exits: seq<Exit>, base: int, cap: int, window: int, limit: int, delays: seq<int>) {
    && |delays| <= |exits|
    && forall n :: 1 <= n <= |delays| ==>
         !Trips(exits[..n], window, limit) && delays[n - 1] == Backoff(base, cap, |SinceHealthy(exits[..n])|)
  }

  lemma WaitedSnoc(exits: seq<Exit>, base: int, cap: int, window: int, limit: int, delays: seq<int>, times: seq<int>,
      delay: int)
    requires Waited(exits, base, cap, window, limit, delays) && |delays| < |exits|
    requires Tracks(exits[..|delays| + 1], base, cap, window, times, delay) &&
      !Trips(exits[..|delays| + 1], window, limit)
    ensures Waited(exits, base, cap, window, limit, delays + [delay])
  {
  }

  /** No exit of the run is forgotten in its streak while it still counts. */
  ghost predicate NothingForgotten(exits: seq<Exit>, window: int) {
    forall n :: 0 <= n <= |exits| ==> NeverForgotten(SinceHealthy(exits[..n]), window)
  }

  ghost predicate TripsAreStorms(exits: seq<Exit>, window: int, limit: int) {
    forall n :: 1 <= n <= |exits| && Trips(exits[..n], window, limit) ==> Storm(exits[..n], window, limit)
  }

  ghost predicate StormsTrip(exits: seq<Exit>, window: int, limit: int) {
    forall n :: 1 <= n <= |exits| && Storm(exits[..n], window, limit) ==> Trips(exits[..n], window, limit)
  }

  lemma RunTripsAreStorms(exits: seq<Exit>, window: int, limit: int)
    requires window >= 0
    ensures TripsAreStorms(exits, window, limit)
    ensures NothingForgotten(exits, window) ==> StormsTrip(exits, window, limit)
  {
    forall n | 1 <= n <= |exits|
      ensures Trips(exits[..n], window, limit) ==> Storm(exits[..n], window, limit)
      ensures NothingForgotten(exits, window) && Storm(exits[..n], window, limit) ==> Trips(exits[..n], window, limit)
    {
      TripsIsStorm(exits[..n], window, limit);
    }
  }

  /**
   * The restart loop over the children's exits, until the breaker opens or the watchdog is stopped after the last of
   * them. The breaker opens at the first exit at which the pruned count reaches the limit. That is a storm of the whole
   * history, and the first one when nothing was forgotten.
   */
  method RestartLoop(exits: seq<Exit>, base: int, cap: int, windowMs: int, maxUnhealthy: int)
    returns (tripped: bool, seen: nat, count: nat, delays: seq<int>)
    requires cap >= 0
    ensures var window, limit := Max(1, windowMs), Max(1, maxUnhealthy);
      && (tripped <==> exists n :: 1 <= n <= |exits| && Trips(exits[..n], window, limit))
      && seen <= |exits| && |delays| == (if tripped then seen - 1 else |exits|)
      && (tripped ==> seen > 0 && Trips(exits[..seen], window, limit) && count == |Counted(exits[..seen], window)|)
      && Waited(exits, base, cap, window, limit, delays)
      && TripsAreStorms(exits, window, limit)
      && (NothingForgotten(exits, window) ==> StormsTrip(exits, window, limit))
  {
    var window, limit := Max(1, windowMs), Max(1, maxUnhealthy);
    var restartDelayMs := base;
    var unhealthyRestartTimestamps: seq<int> := [];
    delays, tripped, count := [], false, 0;
    seen := 0;
    RunTripsAreStorms(exits, window, limit);
    while seen < |exits|
      invariant seen <= |exits| && |delays| == seen && !tripped
      invariant Tracks(exits[..seen], base, cap, window, unhealthyRestartTimestamps, restartDelayMs)
      invariant Waited(exits, base, cap, window, limit, delays)
    {
      var exit := exits[seen];
      ghost var history := exits[..seen];
      assert exits[..seen + 1] == history + [exit];
      seen := seen + 1;
      if exit.healthy {
        TracksHealthy(history, exit, base, cap, window);
        unhealthyRestartTimestamps := [];
        restartDelayMs := base;
      } else {
        TracksUnhealthy(history, exit, base, cap, window, unhealthyRestartTimestamps, restartDelayMs);
        var kept := Prune(unhealthyRestartTimestamps, exit.now, window);
        unhealthyRestartTimestamps := kept + [exit.now];
        if |unhealthyRestartTimestamps| >= limit {
          tripped, count := true, |unhealthyRestartTimestamps|;
          return;
        }
        restartDelayMs := Min(restartDelayMs * 2, cap);
      }
      WaitedSnoc(exits, base, cap, window, limit, delays, unhealthyRestartTimestamps, restartDelayMs);
      delays := delays + [restartDelayMs];
    }
  }

  ghost predicate ClockNeverGoesBack(exits: seq<Exit>) {
    forall i, j :: 0 <= i <= j < |exits| ==> exits[i].now <= exits[j].now
  }

  lemma NondecreasingSnoc(times: seq<int>, t: int)
    requires Nondecreasing(times) && (forall x :: x in times ==> x <= t)
    ensures Nondecreasing(times + [t])
  {
    assert forall i :: 0 <= i < |times| ==> times[i] in times;
  }

  lemma {:induction false} StreakNondecreasing(history: seq<Exit>)
    requires ClockNeverGoesBack(history)
    ensures Nondecreasing(SinceHealthy(history))
    ensures forall t :: t in SinceHealthy(history) ==> t <= history[|history| - 1].now
  {
    if history != [] {
      var init := history[..|history| - 1];
      StreakNondecreasing(init);
      if init != [] {
        assert history[|init| - 1].now <= history[|init|].now;
      }
      NondecreasingSnoc(SinceHealthy(init), history[|init|].now);
    }
  }

  /** While the clock does not go back nothing is forgotten. */
  lemma ForwardClockIsEnough(exits: seq<Exit>, window: int)
    requires ClockNeverGoesBack(exits)
    ensures NothingForgotten(exits, window)
  {
    forall n | 0 <= n <= |exits| ensures NeverForgotten(SinceHealthy(exits[..n]), window) {
      StreakNondecreasing(exits[..n]);
      ForwardClockForgetsNothing(SinceHealthy(exits[..n]), window);
    }
  }

  /** A clock that jumps far ahead and back: the first exit is within the last window, but pruning has forgotten it. */
  lemma ClockJumpUndercounts()
    ensures var times := [0, 100, 5]; |Pruned(times, 10)| < |Within(times, 5, 10)|
  {
    var times := [0, 100, 5];
    assert times[2] - times[0] <= 10 && times[1] - times[0] > 10;
    PrunedIsWholeHistoryIff(times, 10);
  }

  // ----- Monitoring one child -----

  datatype Kpi = Kpi(ok: bool, checkedAt: int)

  datatype Health = Health(leader: bool, pid: Option<int>, kpi: Option<Kpi>, checkedAt: int)

  datatype LockRecord = LockRecord(pid: int, leaseUntil: int)

  /** What one poll reads; a poll whose reading throws is Failed and decides nothing. */
  datatype Poll = Poll(now: int, health: Option<Health>, lock: Option<LockRecord>, probeOk: bool) | Failed

  datatype Config = Config(
    childPid: int, startedAt: int, heartbeatTimeoutMs: int, startupGraceMs: int, hasProbe: bool, probeThreshold: int)

  predicate HeartbeatFresh(c: Config, health: Option<Health>, now: int) {
    && health.Some?
    && var h := health.value;
       && h.leader && h.pid == Some(c.childPid)
       && (h.kpi.None? || h.kpi.value.ok)
       && now - (if h.kpi.Some? then h.kpi.value.checkedAt else h.checkedAt) <= c.heartbeatTimeoutMs
  }

  predicate LeaderFresh(c: Config, lock: Option<LockRecord>, now: int) {
    lock.Some? && lock.value.pid == c.childPid && lock.value.leaseUntil > now
  }

  predicate Leading(c: Config, p: Poll) {
    p.Poll? && HeartbeatFresh(c, p.health, p.now) && LeaderFresh(c, p.lock, p.now)
  }

  /** A poll that finds the child healthy. */
  predicate Good(c: Config, p: Poll) {
    Leading(c, p) && (c.hasProbe ==> p.probeOk)
  }

  predicate ProbeFailure(c: Config, p: Poll) {
    Leading(c, p) && c.hasProbe && !p.probeOk
  }

  /** Probe failures since the last healthy poll; a poll without leadership in between neither counts nor resets. */
  function ProbeFailures(c: Config, polls: seq<Poll>): nat {
    if polls == [] then 0
    else
      var p := polls[|polls| - 1];
      if Good(c, p) then 0
      else ProbeFailures(c, polls[..|polls| - 1]) + if ProbeFailure(c, p) then 1 else 0
  }

  datatype Reason = ExitedAlone | HeartbeatTimeout | HealthProbeFailed

  /** What the last poll of a history calls for. */
  function Judgement(c: Config, polls: seq<Poll>): Reason
    requires polls != []
  {
    var p := polls[|polls| - 1];
    if p.Failed? || Good(c, p) || p.now - c.startedAt < c.startupGraceMs then ExitedAlone
    else if !Leading(c, p) then HeartbeatTimeout
    else if ProbeFailures(c, polls) >= Max(1, c.probeThreshold) then HealthProbeFailed
    else ExitedAlone
  }

  // ----- When a kill is called for, said of the polls alone -----

  /** No health of this child that is new enough and good, or no unexpired lock of it. */
  ghost predicate SeesNoLeader(c: Config, p: Poll) {
    && p.Poll?
    && (|| p.health.None?
        || !p.health.value.leader
        || p.health.value.pid != Some(c.childPid)
        || (p.health.value.kpi.Some? && !p.health.value.kpi.value.ok)
        || (p.health.value.kpi.Some? && p.now > p.health.value.kpi.value.checkedAt + c.heartbeatTimeoutMs)
        || (p.health.value.kpi.None? && p.now > p.health.value.checkedAt + c.heartbeatTimeoutMs)
        || p.lock.None?
        || p.lock.value.pid != c.childPid
        || p.lock.value.leaseUntil <= p.now)
  }

  ghost predicate SeesHealthy(c: Config, p: Poll) {
    p.Poll? && !SeesNoLeader(c, p) && !(c.hasProbe && !p.probeOk)
  }

  ghost predicate SeesProbeFail(c: Config, p: Poll) {
    p.Poll? && !SeesNoLeader(c, p) && c.hasProbe && !p.probeOk
  }

  /** From poll j on, so many probes have failed and none has succeeded. */
  ghost predicate OnlyFailures(c: Config, polls: seq<Poll>, j: nat, count: nat) {
    && j <= |polls|
    && (forall i :: j <= i < |polls| ==> !SeesHealthy(c, polls[i]))
    && |Filtered(polls[j..], p => SeesProbeFail(c, p))| >= count
  }

  ghost predicate CallsForKill(c: Config, polls: seq<Poll>, i: nat, reason: Reason)
    requires i < |polls|
  {
    && polls[i].Poll? && polls[i].now >= c.startedAt + c.startupGraceMs
    && match reason
       case ExitedAlone => false
       case HeartbeatTimeout => SeesNoLeader(c, polls[i])
       case HealthProbeFailed =>
         && SeesProbeFail(c, polls[i])
         && var now, needed := polls[..i + 1], if c.probeThreshold > 1 then c.probeThreshold else 1;
            exists j :: OnlyFailures(c, now, j, needed)
  }

  lemma PollKinds(c: Config, p: Poll)
    ensures Leading(c, p) <==> p.Poll? && !SeesNoLeader(c, p)
    ensures Good(c, p) <==> SeesHealthy(c, p)
    ensures ProbeFailure(c, p) <==> SeesProbeFail(c, p)
  {
  }

  lemma FailuresSnoc(c: Config, polls: seq<Poll>, p: Poll)
    ensures |Filtered(polls + [p], q => SeesProbeFail(c, q))| ==
      |Filtered(polls, q => SeesProbeFail(c, q))| + if SeesProbeFail(c, p) then 1 else 0
  {
    assert (polls + [p])[..|polls|] == polls;
  }

  /** The running count is that of the longest stretch up to now without success. */
  lemma {:induction false} FailuresInStretch(c: Config, polls: seq<Poll>) returns (j: nat)
    ensures OnlyFailures(c, polls, j, ProbeFailures(c, polls))
    decreases |polls|
  {
    j := 0;
    if polls != [] {
      var init, p := polls[..|polls| - 1], polls[|polls| - 1];
      PollKinds(c, p);
      if Good(c, p) {
        j := |polls|;
      } else {
        j := FailuresInStretch(c, init);
        assert polls[j..] == init[j..] + [p];
        FailuresSnoc(c, init[j..], p);
      }
    }
  }

  lemma {:induction false} NoStretchHasMore(c: Config, polls: seq<Poll>, j: nat, count: nat)
    requires OnlyFailures(c, polls, j, count)
    ensures count <= ProbeFailures(c, polls)
    decreases |polls|
  {
    if j < |polls| {
      var init, p := polls[..|polls| - 1], polls[|polls| - 1];
      PollKinds(c, p);
      assert polls[j..] == init[j..] + [p];
      FailuresSnoc(c, init[j..], p);
      NoStretchHasMore(c, init, j, if SeesProbeFail(c, p) && count > 0 then count - 1 else count);
    }
  }

  lemma JudgementIff(c: Config, polls: seq<Poll>, i: nat, reason: Reason)
    requires i < |polls| && reason != ExitedAlone
    ensures Judgement(c, polls[..i + 1]) == reason <==> CallsForKill(c, polls, i, reason)
  {
    var now, needed := polls[..i + 1], Max(1, c.probeThreshold);
    PollKinds(c, polls[i]);
    var j := FailuresInStretch(c, now);
    assert now[|now| - 1] == polls[i] && needed == if c.probeThreshold > 1 then c.probeThreshold else 1;
    if ProbeFailures(c, now) >= needed {
      assert OnlyFailures(c, now, j, needed);
    }
    if k :| OnlyFailures(c, now, k, needed) {
      NoStretchHasMore(c, now, k, needed);
    }
    assert ProbeFailures(c, now) >= needed <==> exists k :: OnlyFailures(c, now, k, needed);
    if reason == HealthProbeFailed {
      var called := SeesProbeFail(c, polls[i]) && polls[i].now >= c.startedAt + c.startupGraceMs &&
        ProbeFailures(c, now) >= needed;
      assert Judgement(c, now) == reason <==> called;
      assert CallsForKill(c, polls, i, reason) ==> called;
      assert called ==> CallsForKill(c, polls, i, reason);
    }
  }

  /**
   * The polls of one child up to its exit. It is killed at the first poll whose history calls for it, and at no later
   * one; it counts as healthy when some poll up to then found it healthy.
   */
  method MonitorChild(c: Config, polls: seq<Poll>) returns (healthy: bool, reason: Reason, killedAt: Option<nat>)
    ensures reason == ExitedAlone <==> forall n :: 1 <= n <= |polls| ==> Judgement(c, polls[..n]) == ExitedAlone
    ensures killedAt.None? <==> reason == ExitedAlone
    ensures killedAt.Some? ==> killedAt.value < |polls| && Judgement(c, polls[..killedAt.value + 1]) == reason
    ensures killedAt.Some? ==> forall n :: 1 <= n <= killedAt.value ==> Judgement(c, polls[..n]) == ExitedAlone
    ensures healthy <==> exists i :: 0 <= i < (if killedAt.Some? then killedAt.value else |polls|) && Good(c, polls[i])
    ensures killedAt.Some? ==> CallsForKill(c, polls, killedAt.value, reason)
    ensures forall i, r ::
      0 <= i < (if killedAt.Some? then killedAt.value else |polls|) ==> !CallsForKill(c, polls, i, r)
    ensures healthy <==>
      exists i :: 0 <= i < (if killedAt.Some? then killedAt.value else |polls|) && SeesHealthy(c, polls[i])
  {
    forall i, r: Reason | 0 <= i < |polls| && r != ExitedAlone
      ensures Judgement(c, polls[..i + 1]) == r <==> CallsForKill(c, polls, i, r)
    {
      JudgementIff(c, polls, i, r);
    }
    forall i | 0 <= i < |polls| ensures Good(c, polls[i]) <==> SeesHealthy(c, polls[i]) {
      PollKinds(c, polls[i]);
    }
    var consecutiveHealthProbeFailures := 0;
    healthy, reason, killedAt := false, ExitedAlone, None;
    for i := 0 to |polls|
      invariant reason == ExitedAlone && killedAt.None?
      invariant consecutiveHealthProbeFailures == ProbeFailures(c, polls[..i])
      invariant healthy <==> exists j :: 0 <= j < i && Good(c, polls[j])
      invariant forall n :: 1 <= n <= i ==> Judgement(c, polls[..n]) == ExitedAlone
    {
      var p := polls[i];
      assert polls[..i + 1][..i] == polls[..i] && polls[..i + 1][i] == p;
      if p.Failed? {
        continue;
      }
      var leadershipHealthy := HeartbeatFresh(c, p.health, p.now) && LeaderFresh(c, p.lock, p.now);
      if leadershipHealthy && c.hasProbe {
        if p.probeOk {
          consecutiveHealthProbeFailures, healthy := 0, true;
          continue;
        }
        consecutiveHealthProbeFailures := consecutiveHealthProbeFailures + 1;
        if p.now - c.startedAt < c.startupGraceMs || consecutiveHealthProbeFailures < Max(1, c.probeThreshold) {
          continue;
        }
        return healthy, HealthProbeFailed, Some(i);
      }
      if leadershipHealthy {
        consecutiveHealthProbeFailures, healthy := 0, true;
        continue;
      }
      if p.now - c.startedAt < c.startupGraceMs {
        continue;
      }
      return healthy, HeartbeatTimeout, Some(i);
    }
  }
}
