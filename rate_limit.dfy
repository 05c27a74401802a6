/** The bundle rate limiter of `src/utils/moonbuy.ts`: a process-wide counter and window
    start, allowing `maxBundlesPerSecond` sends per fixed window of 1000 ms. Time is in
    milliseconds; the caller supplies `Date.now()` on entry and, when the limiter sleeps,
    `Date.now()` after waking. */
module RateLimit {
  import opened Js

  const MaxBundlesPerSecond := 2
  const WindowMs := 1000

  datatype LimiterState = LimiterState(count: int, lastReset: int)

  /** The state after one check and the time it slept for, if it slept. */
  datatype Check = Check(next: LimiterState, wait: Option<int>)

  /** One call of `checkRateLimit` at time `now`; `woke` is the clock after its sleep. */
  function RateStep(s: LimiterState, max: int, now: int, woke: int): (c: Check)
  {
    var s1 := if now - s.lastReset >= WindowMs then LimiterState(0, now) else s;
    if s1.count >= max then
      Check(LimiterState(1, woke), Some(WindowMs - (now - s1.lastReset)))
    else
      Check(LimiterState(s1.count + 1, s1.lastReset), None)
  }

  /** Once a whole window has passed, the window restarts at `now` with this send as its first. */
  lemma WindowExpires(s: LimiterState, max: int, now: int, woke: int)
    requires 1 <= max
    requires now - s.lastReset >= WindowMs
    ensures RateStep(s, max, now, woke) == Check(LimiterState(1, now), None)
  {
  }

  /** A call keeps the counter within 1 and `max`, and sleeps only when the quota of the
      current window is used up; with a clock that has not gone backwards since the window
      began, the sleep lasts more than 0 and at most 1000 ms. */
  lemma StepBounds(s: LimiterState, max: int, now: int, woke: int)
    requires 1 <= max && 0 <= s.count <= max
    ensures var c := RateStep(s, max, now, woke);
      && 1 <= c.next.count <= max
      && (c.wait.Some? <==> now - s.lastReset < WindowMs && s.count >= max)
      && (c.wait.Some? && s.lastReset <= now ==> 0 < c.wait.value <= WindowMs)
  {
  }

  /** `rateLimitState` with `checkRateLimit` as its method. */
  class RateLimitState {
    var count: int
    var lastReset: int
    const maxBundlesPerSecond: int

    function State(): (s: LimiterState)
      reads this
    {
      LimiterState(count, lastReset)
    }

    ghost predicate Valid()
      reads this
    {
      maxBundlesPerSecond == MaxBundlesPerSecond && 0 <= count <= maxBundlesPerSecond
    }

    /** The module's initial state, created when the module loads at time `now`. */
    constructor (now: int)
      ensures Valid()
      ensures count == 0 && lastReset == now
    {
      count := 0;
      lastReset := now;
      maxBundlesPerSecond := MaxBundlesPerSecond;
    }

    method CheckRateLimit(now: int, woke: int) returns (wait: Option<int>)
      requires Valid()
      modifies this`count, this`lastReset
      ensures Valid()
      ensures Check(State(), wait) == RateStep(old(State()), maxBundlesPerSecond, now, woke)
    {
      if now - lastReset >= 1000 {
        count := 0;
        lastReset := now;
      }
      wait := None;
      if count >= maxBundlesPerSecond {
        var waitTime := 1000 - (now - lastReset);
        wait := Some(waitTime);
        count := 0;
        lastReset := woke;
      }
      count := count + 1;
      StepBounds(old(State()), maxBundlesPerSecond, now, woke);
    }
  }

  // ---- runs of consecutive checks ----

  /** The clock readings of one check: on entry, and after the sleep. */
  datatype Reading = Reading(now: int, woke: int)

  /** The limiter's state after the first `i` checks of a run. */
  function StateAfter(s0: LimiterState, max: int, rs: seq<Reading>, i: nat): (s: LimiterState)
    requires i <= |rs|
    decreases i, 0
  {
    if i == 0 then s0 else CheckAt(s0, max, rs, i - 1).next
  }

  /** Check `i` of a run. */
  function CheckAt(s0: LimiterState, max: int, rs: seq<Reading>, i: nat): (c: Check)
    requires i < |rs|
    decreases i, 1
  {
    RateStep(StateAfter(s0, max, rs, i), max, rs[i].now, rs[i].woke)
  }

  /** When the send after check `i` goes out. */
  function SendTime(s0: LimiterState, max: int, rs: seq<Reading>, i: nat): (t: int)
    requires i < |rs|
  {
    if CheckAt(s0, max, rs, i).wait.Some? then rs[i].woke else rs[i].now
  }

  /** Start of the window that send `i` was counted in. */
  function WindowOf(s0: LimiterState, max: int, rs: seq<Reading>, i: nat): (start: int)
    requires i < |rs|
  {
    CheckAt(s0, max, rs, i).next.lastReset
  }

  /** A run in a single thread with a clock that does not go backwards: the first check
      comes no earlier than the window start it finds, each check comes no earlier than the
      previous send, and a sleep of `w` ms wakes no earlier than `w` ms later. */
  ghost predicate HonestClock(s0: LimiterState, max: int, rs: seq<Reading>)
  {
    && (|rs| > 0 ==> s0.lastReset <= rs[0].now)
    && (forall i :: 0 <= i < |rs| - 1 ==> SendTime(s0, max, rs, i) <= rs[i + 1].now)
    && (forall i :: 0 <= i < |rs| ==>
          CheckAt(s0, max, rs, i).wait.Some? ==> rs[i].now + CheckAt(s0, max, rs, i).wait.value <= rs[i].woke)
  }

  /** The counter stays within 0 and `max` along a run. */
  lemma {:induction false} CountInRange(s0: LimiterState, max: int, rs: seq<Reading>, i: nat)
    requires 1 <= max && 0 <= s0.count <= max && i <= |rs|
    ensures 0 <= StateAfter(s0, max, rs, i).count <= max
    ensures 1 <= i ==> 1 <= StateAfter(s0, max, rs, i).count
    decreases i
  {
    if i > 0 {
      CountInRange(s0, max, rs, i - 1);
      StepBounds(StateAfter(s0, max, rs, i - 1), max, rs[i - 1].now, rs[i - 1].woke);
    }
  }

  /** Every check finds a window that began no later than the check. */
  lemma {:induction false} WindowBeganBeforeCheck(s0: LimiterState, max: int, rs: seq<Reading>, i: nat)
    requires HonestClock(s0, max, rs) && i < |rs|
    ensures StateAfter(s0, max, rs, i).lastReset <= rs[i].now
    decreases i
  {
    if i > 0 {
      WindowBeganBeforeCheck(s0, max, rs, i - 1);
      assert SendTime(s0, max, rs, i - 1) <= rs[i].now;
    }
  }

  /** Each send goes out inside the window it is counted in. */
  lemma SendInsideWindow(s0: LimiterState, max: int, rs: seq<Reading>, i: nat)
    requires HonestClock(s0, max, rs) && i < |rs|
    ensures WindowOf(s0, max, rs, i) <= SendTime(s0, max, rs, i) < WindowOf(s0, max, rs, i) + WindowMs
  {
    WindowBeganBeforeCheck(s0, max, rs, i);
  }

  /** A check either counts its send in the window it found, one more than before, or
      opens a new window no earlier than 1000 ms after the one it found. */
  lemma StepShape(s0: LimiterState, max: int, rs: seq<Reading>, i: nat)
    requires HonestClock(s0, max, rs) && i < |rs|
    ensures var before := StateAfter(s0, max, rs, i);
      var after := CheckAt(s0, max, rs, i).next;
      || (after.lastReset == before.lastReset && after.count == before.count + 1 && before.count < max)
      || (after.lastReset >= before.lastReset + WindowMs && after.lastReset == SendTime(s0, max, rs, i))
  {
    assert CheckAt(s0, max, rs, i).wait.Some? ==>
      rs[i].now + CheckAt(s0, max, rs, i).wait.value <= rs[i].woke;
  }

  /** Sends go out in order of time. */
  lemma {:induction false} SendTimesAscend(s0: LimiterState, max: int, rs: seq<Reading>, i: nat, j: nat)
    requires HonestClock(s0, max, rs) && i <= j < |rs|
    ensures SendTime(s0, max, rs, i) <= SendTime(s0, max, rs, j)
    decreases j - i
  {
    if i < j {
      SendTimesAscend(s0, max, rs, i + 1, j);
      assert SendTime(s0, max, rs, i) <= rs[i + 1].now;
      assert CheckAt(s0, max, rs, i + 1).wait.Some? ==>
        rs[i + 1].now + CheckAt(s0, max, rs, i + 1).wait.value <= rs[i + 1].woke;
      WindowBeganBeforeCheck(s0, max, rs, i + 1);
    }
  }

  /** Once send `i` has been counted as the `c`-th of its window, the send `m` places
      later, for any `m` beyond the `max - c` the window still admits, is no earlier than
      1000 ms after that window began. */
  lemma {:induction false} QuotaHolds(s0: LimiterState, max: int, rs: seq<Reading>, i: nat, m: nat)
    requires 1 <= max && 0 <= s0.count <= max
    requires HonestClock(s0, max, rs) && i + m < |rs|
    requires m >= max - CheckAt(s0, max, rs, i).next.count + 1
    ensures SendTime(s0, max, rs, i + m) >= WindowOf(s0, max, rs, i) + WindowMs
    decreases m
  {
    CountInRange(s0, max, rs, i + 1);
    StepShape(s0, max, rs, i + 1);
    var w := WindowOf(s0, max, rs, i);
    assert StateAfter(s0, max, rs, i + 1) == CheckAt(s0, max, rs, i).next;
    if CheckAt(s0, max, rs, i + 1).next.lastReset == w && m > 1 {
      QuotaHolds(s0, max, rs, i + 1, m - 1);
    } else {
      assert SendTime(s0, max, rs, i + 1) >= w + WindowMs;
      SendTimesAscend(s0, max, rs, i + 1, i + m);
    }
  }

  /** The limiter's guarantee: of `max + 1` consecutive sends, the last goes out no earlier
      than 1000 ms after the window of the first began, while the first went out inside
      it. So no window admits more than `max` sends. */
  lemma AtMostMaxPerWindow(s0: LimiterState, max: int, rs: seq<Reading>, i: nat)
    requires 1 <= max && 0 <= s0.count <= max
    requires HonestClock(s0, max, rs) && i + max < |rs|
    ensures WindowOf(s0, max, rs, i) <= SendTime(s0, max, rs, i) < WindowOf(s0, max, rs, i) + WindowMs
    ensures SendTime(s0, max, rs, i + max) >= WindowOf(s0, max, rs, i) + WindowMs
  {
    SendInsideWindow(s0, max, rs, i);
    CountInRange(s0, max, rs, i + 1);
    QuotaHolds(s0, max, rs, i, max);
  }
}
