/** The countdown that `TimerService.setTimer` runs: while the remaining time
    is positive, wait a second, subtract 1000 ms, and post a notification
    when a whole minute of remaining time has just begun. The functions here
    say what an uninterrupted run of that loop does, from its starting value. */
module Countdown {
  import opened Kotlin
  import opened Arithmetic

  const TickMillis: int := 1000
  const MinuteMillis: int := 60000

  /** What the timer tells the notification and alarm collaborators, in order. */
  datatype Signal =
    | MinuteNotification(remainingMinutes: int)
    | ResumeNotification(restoredSystemTime: int, currentSystemTime: int)
    | FinishedAlarm(timeAgoFinishedExtra: Option<int>)

  /** Whether the tick that leaves `r` milliseconds posts a minute notification:
      the remaining whole seconds are a multiple of 60 and whole minutes remain.
      In closed form: at least one minute remains and less than a second has
      passed since the last whole minute. */
  predicate IsMinuteBoundary(r: int)
    ensures IsMinuteBoundary(r) <==> r >= MinuteMillis && r % MinuteMillis < TickMillis
  {
    TruncatedMinuteRule(r);
    Rem(Quot(r, 1000), 60) == 0 && Quot(r, 60000) > 0
  }

  /** The truncating-division test of `IsMinuteBoundary` in closed form. */
  lemma TruncatedMinuteRule(r: int)
    ensures Rem(Quot(r, 1000), 60) == 0 && Quot(r, 60000) > 0 <==> r >= MinuteMillis && r % MinuteMillis < TickMillis
  {
    if r >= 0 {
      var s := r / 1000;
      assert Quot(r, 1000) == s;
      assert r / 60000 == s / 60 && r % 60000 == 1000 * (s % 60) + r % 1000 by {
        DivDivMod(r, 1000, 60);
      }
    } else {
      assert Quot(r, 60000) <= 0;
    }
  }

  /** The signals posted by the tick that leaves `r` milliseconds. */
  function TickSignals(r: int): seq<Signal> {
    if IsMinuteBoundary(r) then [MinuteNotification(Quot(r, 60000))] else []
  }

  /** The number of ticks the loop runs from `r`: the least `n` with
      `r - 1000 * n <= 0`. */
  function TicksToFinish(r: int): (n: nat)
    ensures r <= 0 ==> n == 0
    ensures r > 0 ==> TickMillis * (n - 1) < r <= TickMillis * n
    decreases r
  {
    if r <= 0 then 0 else 1 + TicksToFinish(r - TickMillis)
  }

  /** The remaining time when the loop condition first fails. */
  function FinalRemaining(r: int): (f: int)
    ensures f == r - TickMillis * TicksToFinish(r)
    ensures r > 0 ==> -TickMillis < f <= 0
    ensures r <= 0 ==> f == r
    decreases r
  {
    if r <= 0 then r else FinalRemaining(r - TickMillis)
  }

  /** The minute notifications the loop posts from `r` until it stops. */
  function CountdownSignals(r: int): (sig: seq<Signal>)
    ensures r <= 0 ==> sig == []
    ensures |sig| <= TicksToFinish(r)
    ensures forall i :: 0 <= i < |sig| ==> sig[i].MinuteNotification? && sig[i].remainingMinutes > 0
    decreases r
  {
    if r <= 0 then [] else TickSignals(r - TickMillis) + CountdownSignals(r - TickMillis)
  }

  /** One notification per minute, counting down from `m` to 1. */
  function MinuteCountdown(m: int): (s: seq<Signal>)
    ensures |s| == if m <= 0 then 0 else m
    ensures forall i :: 0 <= i < |s| ==> s[i] == MinuteNotification(m - i)
    decreases m
  {
    if m <= 0 then [] else [MinuteNotification(m)] + MinuteCountdown(m - 1)
  }

  /** Starting from `1000 * s` milliseconds, the loop runs exactly `s` ticks and
      stops at zero. */
  lemma {:induction false} WholeSecondsRun(s: nat)
    ensures TicksToFinish(TickMillis * s) == s
    ensures FinalRemaining(TickMillis * s) == 0
  {
    if s > 0 {
      WholeSecondsRun(s - 1);
      assert TickMillis * s - TickMillis == TickMillis * (s - 1);
    }
  }

  /** A run from `n` minutes (`n * 60 * 1000` ms) has `n * 60` ticks and ends at 0. */
  lemma StartRunsExactly(n: nat)
    ensures TicksToFinish(n * 60 * 1000) == n * 60
    ensures FinalRemaining(n * 60 * 1000) == 0
  {
    assert n * 60 * 1000 == TickMillis * (n * 60);
    WholeSecondsRun(n * 60);
  }

  /** From any start `r`, also one that is not a whole number of seconds (a
      run resumed by recovery), the loop announces the whole minutes
      `(r - 1000) / 60000` down to 1, once each and in order. */
  lemma {:induction false} RunSignals(r: int)
    ensures CountdownSignals(r) == MinuteCountdown((r - TickMillis) / MinuteMillis)
    decreases r
  {
    if r > 0 {
      var x := r - TickMillis;
      RunSignals(x);
      var q, m := x / MinuteMillis, x % MinuteMillis;
      if x >= MinuteMillis && m < TickMillis {
        DivModUnique(x - TickMillis, MinuteMillis, q - 1, m + MinuteMillis - TickMillis);
        assert TickSignals(x) == [MinuteNotification(q)];
      } else if x >= MinuteMillis {
        DivModUnique(x - TickMillis, MinuteMillis, q, m - TickMillis);
      } else {
        assert (x - TickMillis) / MinuteMillis <= 0;
        assert q <= 0;
      }
    }
  }

  /** From `1000 * s` milliseconds the loop announces each whole minute below
      the starting one, from `(s - 1) / 60` down to 1. */
  lemma WholeSecondsSignals(s: nat)
    ensures CountdownSignals(TickMillis * s) == MinuteCountdown((s - 1) / 60)
  {
    RunSignals(TickMillis * s);
    if s > 0 {
      var r := TickMillis * (s - 1);
      assert TickMillis * s - TickMillis == r;
      assert r / 1000 == s - 1;
      DivDivMod(r, 1000, 60);
    }
  }

  /** A run started with `n` minutes posts one notification for each of the
      minutes `n - 1` down to `1`, in that order, and no other. */
  lemma StartMinuteNotifications(n: nat)
    ensures CountdownSignals(n * 60 * 1000) == MinuteCountdown(n - 1)
  {
    assert n * 60 * 1000 == TickMillis * (n * 60);
    WholeSecondsSignals(n * 60);
    if n > 0 {
      assert (n * 60 - 1) / 60 == n - 1;
    }
  }
}
