/**
 Exponential backoff (source/util/Retry.cpp).

 The retried function and the stop flag belong to the environment: `outcomes[i]` is the result of attempt `i`,
 `flags[0]` the value of the flag before the first attempt and `flags[i + 1]` its value after attempt `i`.  An
 unlimited retry can run for ever, so a run is followed for as many attempts as the environment lists; it is
 `finished` if it has returned by then.
 */
module Retry {

  datatype Config = Config(
    startingBackoffMillis: int,
    maxBackoffMillis: int,
    maxRetries: int,
    hasStopFlag: bool)

  datatype Trace = Trace(finished: bool, successful: bool, attempts: nat, sleeps: seq<int>, completions: nat)

  /** Retries are not limited, or another one is left after `attempts`. */
  predicate MayRetry(config: Config, attempts: int) {
    config.maxRetries < 0 || attempts < config.maxRetries
  }

  function Sleep(config: Config, k: nat): int {
    if k == 0 then config.startingBackoffMillis
    else
      var previous := Sleep(config, k - 1);
      if previous * 2 > config.maxBackoffMillis then config.maxBackoffMillis else previous * 2
  }

  /** The first `n` sleeps. */
  function Sleeps(config: Config, n: nat): (sleeps: seq<int>)
    ensures |sleeps| == n
    ensures forall k :: 0 <= k < n ==> sleeps[k] == Sleep(config, k)
  {
    if n == 0 then [] else Sleeps(config, n - 1) + [Sleep(config, n - 1)]
  }

  /** The number of sleeps: one after each failure, but none after the last attempt allowed. */
  function SleepCount(config: Config, attempts: nat, successful: bool): nat {
    if attempts > 0 && (successful || !MayRetry(config, attempts)) then attempts - 1 else attempts
  }

  /** None of the first `n` values is true. */
  predicate NoneOf(values: seq<bool>, n: int) {
    forall i :: 0 <= i < n && i < |values| ==> !values[i]
  }

  /** The failures among the first `attempts` that another attempt may follow; a negative limit is none. */
  function RetriedFailures(outcomes: seq<bool>, attempts: nat, maxRetries: int): nat
    requires attempts <= |outcomes|
  {
    if attempts == 0 then 0
    else
      RetriedFailures(outcomes, attempts - 1, maxRetries) +
      if !outcomes[attempts - 1] && (maxRetries < 0 || attempts < maxRetries) then 1 else 0
  }

  /** There is one sleep after each such failure. */
  lemma {:induction false} SleepPerFailure(config: Config, outcomes: seq<bool>, attempts: nat)
    requires attempts <= |outcomes| && NoneOf(outcomes, attempts - 1)
    requires config.maxRetries >= 0 ==> attempts <= config.maxRetries
    ensures SleepCount(config, attempts, attempts > 0 && outcomes[attempts - 1]) ==
            RetriedFailures(outcomes, attempts, config.maxRetries)
  {
    if attempts > 0 {
      SleepPerFailure(config, outcomes, attempts - 1);
      if attempts > 1 {
        assert !outcomes[attempts - 2];
      }
    }
  }

  method ExponentialBackoff(config: Config, outcomes: seq<bool>, flags: seq<bool>) returns (trace: Trace)
    requires |flags| == |outcomes| + 1
    // the caller is told exactly once, when the run ends
    ensures trace.completions == if trace.finished then 1 else 0
    // attempts stop at the first success, and none starts once the flag has been seen set
    ensures trace.attempts <= |outcomes|
    ensures NoneOf(outcomes, trace.attempts - 1)
    ensures config.hasStopFlag ==> NoneOf(flags, trace.attempts)
    ensures trace.successful <==> trace.attempts > 0 && outcomes[trace.attempts - 1]
    // why the run ended, or that it goes on
    ensures trace.finished <==>
            trace.successful || (config.hasStopFlag && flags[trace.attempts]) || !MayRetry(config, trace.attempts)
    ensures !trace.finished ==> trace.attempts == |outcomes|
    ensures config.maxRetries >= 0 ==> trace.attempts <= config.maxRetries
    ensures 0 <= config.maxRetries <= |outcomes| ==> trace.finished
    // a run that is neither successful nor told to stop uses all its retries
    ensures trace.finished && !trace.successful && !(config.hasStopFlag && flags[trace.attempts]) ==>
              trace.attempts == config.maxRetries
    ensures trace.sleeps == Sleeps(config, SleepCount(config, trace.attempts, trace.successful))
    ensures |trace.sleeps| == RetriedFailures(outcomes, trace.attempts, config.maxRetries)
  {
    var needToStop := config.hasStopFlag && flags[0];
    if needToStop {
      return Trace(true, false, 0, [], 1);
    }
    var successful, backoffMillis, retriesSoFar := false, config.startingBackoffMillis, 0;
    var i, sleeps := 0, [];
    while !successful && !needToStop && (config.maxRetries < 0 || retriesSoFar < config.maxRetries)
      invariant 0 <= i <= |outcomes|
      invariant retriesSoFar == if config.maxRetries >= 0 then i else 0
      invariant config.maxRetries >= 0 ==> i <= config.maxRetries
      invariant NoneOf(outcomes, i - 1)
      invariant successful <==> i > 0 && outcomes[i - 1]
      invariant config.hasStopFlag ==> NoneOf(flags, i)
      invariant needToStop <==> config.hasStopFlag && flags[i]
      invariant sleeps == Sleeps(config, SleepCount(config, i, successful))
      invariant !successful && MayRetry(config, i) ==> backoffMillis == Sleep(config, i)
      decreases |outcomes| - i
    {
      if i == |outcomes| {
        SleepPerFailure(config, outcomes, i);
        return Trace(false, false, i, sleeps, 0);
      }
      successful := outcomes[i];
      i := i + 1;
      if config.maxRetries >= 0 {
        retriesSoFar := retriesSoFar + 1;
      }
      if !successful && (config.maxRetries < 0 || retriesSoFar < config.maxRetries) {
        sleeps := sleeps + [backoffMillis];
        backoffMillis :=
          if backoffMillis * 2 > config.maxBackoffMillis then config.maxBackoffMillis else backoffMillis * 2;
      }
      if config.hasStopFlag {
        needToStop := flags[i];
      }
    }
    SleepPerFailure(config, outcomes, i);
    return Trace(true, successful, i, sleeps, 1);
  }

  // ---------------------------------------------------------------- how long the sleeps are

  function Pow2(k: nat): (p: nat)
    ensures p >= 1
  {
    if k == 0 then 1 else 2 * Pow2(k - 1)
  }

  function Min(a: int, b: int): int {
    if a <= b then a else b
  }

  /** The first sleep is the configured one; from then on doubling is cut off at the maximum. */
  lemma {:induction false} SleepClosedForm(config: Config, k: nat)
    requires 0 < config.startingBackoffMillis && 0 <= config.maxBackoffMillis
    ensures Sleep(config, k) ==
            if k == 0 then config.startingBackoffMillis
            else Min(config.maxBackoffMillis, config.startingBackoffMillis * Pow2(k))
  {
    if k > 0 {
      SleepClosedForm(config, k - 1);
      var doubled := config.startingBackoffMillis * Pow2(k - 1);
      assert config.startingBackoffMillis * Pow2(k) == 2 * doubled;
      assert doubled >= config.startingBackoffMillis by {
        MulAtLeast(config.startingBackoffMillis, Pow2(k - 1));
      }
    }
  }

  lemma MulAtLeast(a: int, b: nat)
    requires 0 < a && 1 <= b
    ensures a * b >= a
  {
  }

  /** No sleep exceeds the maximum exactly if the first one does not; then no doubled value exceeds it twice over. */
  lemma SleepsBoundedIff(config: Config)
    requires 0 < config.startingBackoffMillis && 0 <= config.maxBackoffMillis
    ensures (forall k: nat :: Sleep(config, k) <= config.maxBackoffMillis) <==>
            config.startingBackoffMillis <= config.maxBackoffMillis
    ensures config.startingBackoffMillis <= config.maxBackoffMillis ==>
              forall k: nat :: Sleep(config, k) * 2 <= 2 * config.maxBackoffMillis
  {
    if forall k: nat :: Sleep(config, k) <= config.maxBackoffMillis {
      assert Sleep(config, 0) <= config.maxBackoffMillis;
    }
    forall k: nat | config.startingBackoffMillis <= config.maxBackoffMillis
      ensures Sleep(config, k) <= config.maxBackoffMillis
    {
      SleepClosedForm(config, k);
    }
  }

  /** The configurations of a job status update: without limit while running, three attempts while stopping. */
  function UpdateConfig(needStop: bool): Config {
    if needStop then Config(10 * 1000, 640 * 1000, 3, false) else Config(10 * 1000, 640 * 1000, -1, true)
  }

  /** While running the delay doubles six times and stays; while stopping the sleeps take 30 seconds in all. */
  lemma UpdateDelays(needStop: bool, k: nat)
    ensures Sleep(UpdateConfig(needStop), k) == if k < 6 then 10 * 1000 * Pow2(k) else 640 * 1000
    ensures Sleep(UpdateConfig(true), 0) + Sleep(UpdateConfig(true), 1) == 30 * 1000
  {
    SleepClosedForm(UpdateConfig(needStop), k);
    SleepClosedForm(UpdateConfig(true), 1);
    assert Pow2(1) == 2 && Pow2(2) == 4 && Pow2(3) == 8 && Pow2(4) == 16 && Pow2(5) == 32;
    assert Pow2(6) == 64;
    Pow2Grows(6, k);
  }

  lemma {:induction false} Pow2Grows(j: nat, k: nat)
    ensures j <= k ==> Pow2(j) <= Pow2(k)
  {
    if j < k {
      Pow2Grows(j, k - 1);
    }
  }
}
