/** Properties of the timer's lifecycle that relate several steps of
    `TimerService`: what a start, a run to the end, a stop, a reset, the save
    before the process dies and the recovery in the next process do to the
    remaining time, the stored snapshot and the signals sent. */
module Lifecycle {
  import opened Kotlin
  import opened TimerPrefs
  import opened Countdown
  import opened TimerServiceModel
  import TimerAlarm

  /** The state of a new process: nothing in memory, the file as the previous
      process left it. */
  function FreshProcess(p: Prefs): (s: ServiceState)
    ensures s.remaining == 0 && !s.ticking && s.prefs == p && s.signals == []
  {
    ServiceState(0, false, p, [])
  }

  /** Every command, tick, run and save keeps the stored snapshot consistent:
      a stored remaining time always comes with its save time. */
  lemma StepsKeepConsistent(s: ServiceState, cmd: Command, redelivered: bool, now: int, clock: nat -> int)
    requires Consistent(s)
    ensures Consistent(Handled(s, cmd, redelivered, now))
    ensures Consistent(Ticked(s, now))
    ensures Consistent(CountedDown(s, clock))
    ensures Consistent(Finished(s))
    ensures Consistent(BeforeStopped(s, now))
  {
  }

  /** A Start whose `minutes * 60` fits in an `Int` (every Start from the
      screen, and negative counts too) sets the remaining time to exactly the
      minutes in milliseconds and saves that snapshot with the current time,
      leaving the stop flag as it was; a redelivered Start is a recovery
      instead. */
  lemma StartIsExactMillis(s: ServiceState, m: Int32, now: int)
    requires Consistent(s)
    requires IntMin <= m * 60 <= IntMax
    ensures var s' := Handled(s, Start(Some(m)), false, now);
      && s'.remaining == m * 60 * 1000 && s'.ticking
      && StoredRemainingTime(s'.prefs) == m * 60 * 1000 && StoredSystemTime(s'.prefs) == now
      && StoredStoppedFlag(s'.prefs) == StoredStoppedFlag(s.prefs)
      && s'.signals == s.signals
    ensures Handled(s, Start(Some(m)), true, now) == Recovered(s, now)
  {
  }

  /** The `Int` product `minutes * 60` wraps: a Start carrying 35791395
      minutes begins with a negative remaining time, so its loop does not run
      and the alarm fires at once. */
  lemma StartMinutesWrap()
    ensures StartMillis(Some(35791395)) == -2147483596000
    ensures TicksToFinish(StartMillis(Some(35791395))) == 0
  {
  }

  /** One tick lowers the remaining time by exactly one second, saves the new
      value with the tick's time, and posts a notification exactly at the
      start of a whole minute of remaining time. */
  lemma TickStep(s: ServiceState, now: int)
    requires Consistent(s)
    ensures var s' := Ticked(s, now); var r := s.remaining - TickMillis;
      && s'.remaining == r
      && StoredRemainingTime(s'.prefs) == r && StoredSystemTime(s'.prefs) == now
      && StoredStoppedFlag(s'.prefs) == StoredStoppedFlag(s.prefs)
      && (r >= MinuteMillis && r % MinuteMillis < TickMillis ==> s'.signals == s.signals + [MinuteNotification(r / MinuteMillis)])
      && (!(r >= MinuteMillis && r % MinuteMillis < TickMillis) ==> s'.signals == s.signals)
  {
  }

  /** From any positive remaining time the loop stops between -1000 and 0,
      without clamping, and the file then holds that final value with the
      time of the last tick. */
  lemma AnyRunEnds(s: ServiceState, clock: nat -> int)
    requires Consistent(s) && s.remaining > 0
    ensures var s' := CountedDown(s, clock); var n := TicksToFinish(s.remaining);
      && n >= 1
      && -TickMillis < s'.remaining <= 0
      && s'.remaining == s.remaining - TickMillis * n
      && StoredRemainingTime(s'.prefs) == s'.remaining
      && StoredSystemTime(s'.prefs) == clock(n - 1)
      && StoredStoppedFlag(s'.prefs) == StoredStoppedFlag(s.prefs)
  {
  }

  /** A Start with `n` minutes that runs to the end takes `n * 60` ticks,
      announces the minutes `n - 1` down to 1, fires the alarm without an
      overdue amount, and leaves the remaining time at 0 and the file empty. */
  lemma StartRunsToAlarm(s: ServiceState, n: nat, now: int, clock: nat -> int)
    requires Consistent(s)
    ensures TicksToFinish(TimerSet(s, n * 60 * 1000, now).remaining) == n * 60
    ensures var s' := Finished(CountedDown(TimerSet(s, n * 60 * 1000, now), clock));
      && s'.remaining == 0 && !s'.ticking && s'.prefs == map[]
      && s'.signals == s.signals + MinuteCountdown(n - 1) + [FinishedAlarm(None)]
  {
    StartRunsExactly(n);
    StartMinuteNotifications(n);
  }

  /** Reset and the end of a run both remove the three keys and zero the
      remaining time; only the end of a run fires the alarm. */
  lemma FinishAndResetClear(s: ServiceState)
    requires Consistent(s)
    ensures var s' := ResetDone(s);
      s'.remaining == 0 && !s'.ticking && s'.prefs == map[] && s'.signals == s.signals
    ensures var s' := Finished(s);
      s'.remaining == 0 && !s'.ticking && s'.prefs == map[] && s'.signals == s.signals + [FinishedAlarm(None)]
  {
  }

  /** Clearing twice is clearing once, so a second completion or a second
      reset finds nothing left to remove. */
  lemma EndIdempotent(s: ServiceState)
    requires Consistent(s)
    ensures Ended(Ended(s)) == Ended(s)
    ensures ResetDone(ResetDone(s)) == ResetDone(s)
  {
  }

  /** Stop cancels the loop and sets the stop flag; the remaining time and the
      stored save time and remaining time stay as they were. */
  lemma StopWritesOnlyFlag(s: ServiceState)
    requires Consistent(s)
    ensures var s' := Stopped(s);
      && !s'.ticking && s'.remaining == s.remaining && s'.signals == s.signals
      && StoredStoppedFlag(s'.prefs)
      && StoredSystemTime(s'.prefs) == StoredSystemTime(s.prefs)
      && StoredRemainingTime(s'.prefs) == StoredRemainingTime(s.prefs)
      && s'.prefs - {KeyTimerStoppedFlag} == s.prefs - {KeyTimerStoppedFlag}
  {
  }

  /** With the stop flag set or no positive remaining time stored, recovery
      clears the file and the remaining time, starts no loop and fires no
      alarm. */
  lemma RecoveryNothingToResume(s: ServiceState, now: int)
    requires Consistent(s)
    requires StoredStoppedFlag(s.prefs) || StoredRemainingTime(s.prefs) <= 0
    ensures Recovered(s, now) == s.(remaining := 0, prefs := map[])
  {
  }

  /** Recovering from an empty file, as after a finished or reset timer,
      does nothing but zero the remaining time. */
  lemma RecoveryOnEmptyStore(s: ServiceState, now: int)
    requires Consistent(s) && s.prefs == map[]
    ensures Recovered(s, now) == s.(remaining := 0)
  {
  }

  /** Elapsed-time correction: with `R` stored at time `T` and the flag clear,
      recovering `e` milliseconds later resumes with `R - e` when `e < R`, and
      otherwise fires the alarm `e - R` overdue, attaching that amount only
      when it is positive. */
  lemma ElapsedCorrection(s: ServiceState, now: int)
    requires Consistent(s)
    requires !StoredStoppedFlag(s.prefs) && StoredRemainingTime(s.prefs) > 0
    ensures var R := StoredRemainingTime(s.prefs); var T := StoredSystemTime(s.prefs); var e := now - T;
      e < R ==> (Recovered(s, now) ==
        s.(remaining := R - e, ticking := true, prefs := SaveSnapshot(s.prefs, now, R - e),
           signals := s.signals + [ResumeNotification(T, now)]))
    ensures var R := StoredRemainingTime(s.prefs); var T := StoredSystemTime(s.prefs); var e := now - T;
      e >= R ==> (Recovered(s, now) ==
        s.(remaining := 0, prefs := map[], signals := s.signals + [FinishedAlarm(AlarmExtra(e - R))]))
    ensures var R := StoredRemainingTime(s.prefs); var T := StoredSystemTime(s.prefs); var e := now - T;
      e >= R ==> (AlarmExtra(e - R).Some? <==> e > R)
  {
  }

  /** A remaining time is never stored without its save time, so the
      elapsed time of a recovery is measured from a real save: when recovery
      resumes, its notice carries the stored save time, not the default 0 of
      a missing key. */
  lemma ResumeNoticeCarriesSavedTime(s: ServiceState, now: int)
    requires Consistent(s)
    requires RecoveryDecision(s.prefs, now).ResumeFrom?
    ensures KeyRemainingTime in s.prefs && KeySystemTime in s.prefs
    ensures Recovered(s, now).signals == s.signals + [ResumeNotification(s.prefs[KeySystemTime].longValue, now)]
  {
  }

  /** A clock that went backwards is not clamped: the resumed time exceeds the
      stored one by the amount the clock went back. */
  lemma BackwardClockNotClamped(s: ServiceState, now: int)
    requires Consistent(s)
    requires !StoredStoppedFlag(s.prefs) && StoredRemainingTime(s.prefs) > 0
    requires now < StoredSystemTime(s.prefs)
    ensures Recovered(s, now).remaining == StoredRemainingTime(s.prefs) + (StoredSystemTime(s.prefs) - now)
    ensures Recovered(s, now).remaining > StoredRemainingTime(s.prefs)
  {
    ElapsedCorrection(s, now);
  }

  /** The save before the process goes away: with time left it stores that
      time with the current clock and leaves the flag alone; otherwise it
      clears everything. Resume then restarts from the remaining time in
      memory, whatever the file holds. */
  lemma BeforeStoppedSaves(s: ServiceState, now: int, redelivered: bool)
    requires Consistent(s)
    ensures s.remaining > 0 ==>
      var s' := BeforeStopped(s, now);
      && s'.remaining == s.remaining
      && StoredRemainingTime(s'.prefs) == s.remaining && StoredSystemTime(s'.prefs) == now
      && (KeyTimerStoppedFlag in s'.prefs <==> KeyTimerStoppedFlag in s.prefs)
      && StoredStoppedFlag(s'.prefs) == StoredStoppedFlag(s.prefs)
    ensures s.remaining <= 0 ==> BeforeStopped(s, now) == s.(remaining := 0, prefs := map[])
    ensures Handled(s, Resume, redelivered, now).remaining == s.remaining
    ensures StoredRemainingTime(Handled(s, Resume, redelivered, now).prefs) == s.remaining
  {
  }

  /** A running timer whose process is killed resumes in the next process
      with the time it had less the time the process was away, or fires the
      alarm with the overdue amount. */
  lemma KillAndRecover(s: ServiceState, killedAt: int, recoveredAt: int)
    requires Consistent(s) && s.remaining > 0 && !StoredStoppedFlag(s.prefs)
    ensures var next := FreshProcess(BeforeStopped(s, killedAt).prefs);
      var away := recoveredAt - killedAt;
      && (away < s.remaining ==>
            && Recovered(next, recoveredAt).remaining == s.remaining - away
            && Recovered(next, recoveredAt).ticking
            && Recovered(next, recoveredAt).signals == [ResumeNotification(killedAt, recoveredAt)])
      && (away >= s.remaining ==>
            && Recovered(next, recoveredAt).remaining == 0
            && Recovered(next, recoveredAt).prefs == map[]
            && Recovered(next, recoveredAt).signals == [FinishedAlarm(AlarmExtra(away - s.remaining))])
  {
    var next := FreshProcess(BeforeStopped(s, killedAt).prefs);
    ElapsedCorrection(next, recoveredAt);
  }

  /** A stopped timer is never resumed by a later recovery, even when the
      process saved its remaining time before going away. */
  lemma StopThenRecoverDiscards(s: ServiceState, killedAt: int, recoveredAt: int)
    requires Consistent(s)
    ensures var next := FreshProcess(BeforeStopped(Stopped(s), killedAt).prefs);
      Recovered(next, recoveredAt) == next.(prefs := map[])
  {
    var stopped := Stopped(s);
    if stopped.remaining > 0 {
      assert StoredStoppedFlag(BeforeStopped(stopped, killedAt).prefs);
    }
  }

  /** Neither Resume nor Start clears the stop flag: a countdown that was
      stopped and resumed is discarded, not resumed, by a recovery after its
      process is killed. */
  lemma StopFlagSurvivesResume(s: ServiceState, resumedAt: int, killedAt: int, recoveredAt: int)
    requires Consistent(s)
    ensures var running := Handled(Stopped(s), Resume, false, resumedAt);
      && running.ticking
      && StoredStoppedFlag(running.prefs)
    ensures var running := Handled(Stopped(s), Resume, false, resumedAt);
      var next := FreshProcess(BeforeStopped(running, killedAt).prefs);
      Recovered(next, recoveredAt) == next.(prefs := map[])
  {
    var running := Handled(Stopped(s), Resume, false, resumedAt);
    assert StoredStoppedFlag(running.prefs);
    if running.remaining > 0 {
      assert StoredStoppedFlag(BeforeStopped(running, killedAt).prefs);
    }
  }

  /** The redelivery flag is honoured only for Start: a Resume redelivered to
      a new process restarts from the process's zero remaining time, so its
      run ends at once with the alarm and erases the stored snapshot, even one
      a recovery would have resumed. */
  lemma RedeliveredResumeInFreshProcess(p: Prefs, now: int, clock: nat -> int)
    requires Consistent(FreshProcess(p))
    ensures var s := Handled(FreshProcess(p), Resume, true, now);
      && s.remaining == 0
      && TicksToFinish(s.remaining) == 0
      && Finished(CountedDown(s, clock)) == ServiceState(0, false, map[], [FinishedAlarm(None)])
  {
  }

  /** The alarm the service asks for shows the plain message exactly when the
      overdue amount is not positive: only a positive amount is put on the
      intent, and a missing amount reads as 0. */
  lemma AlarmMessageForOverdue(timeAgoFinished: int)
    ensures var shown := TimerAlarm.ReadTimeAgoFinished(AlarmExtra(timeAgoFinished));
      && (timeAgoFinished > 0 ==> shown == timeAgoFinished)
      && (TimerAlarm.AlarmMessage(shown) == TimerAlarm.PlainMessage <==> timeAgoFinished <= 0)
  {
  }
}
