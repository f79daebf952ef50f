/** The lifecycle of the single countdown, as `TimerService` runs it: the
    commands it receives, the tick loop, the per-tick save, the stop flag,
    reset and finish, the save before the service goes away, and the
    recovery after a reboot or a redelivered start.

    The functions on `ServiceState` say what each step does to the whole
    state; the methods of the class `TimerService` perform the steps on the
    object and its store and are proved to agree with those functions. */
module TimerServiceModel {
  import opened Kotlin
  import opened TimerPrefs
  import opened Countdown

  /** The intent actions the service handles. `Start` carries the
      `EXTRA_TIME_IN_MINUTES` extra, if any; an intent without a known action
      does nothing. */
  datatype Command =
    | Start(minutesExtra: Option<Int32>)
    | Resume
    | Stop
    | Reset
    | AfterReboot
    | Unrecognized

  /** `getIntExtra(EXTRA_TIME_IN_MINUTES, 0) * 60 * 1000L`: the first product
      is an `Int` product and wraps around before it is widened to `Long`. */
  function StartMillis(minutesExtra: Option<Int32>): (ms: int)
    ensures minutesExtra.None? ==> ms == 0
    ensures minutesExtra.Some? && IntMin <= minutesExtra.value * 60 <= IntMax ==> ms == minutesExtra.value * 60 * 1000
    ensures ms % TickMillis == 0
  {
    WrapInt(minutesExtra.GetOr(0) * 60) * 1000
  }

  /** The `timeAgoFinished` extra put on the alarm intent: only when positive. */
  function AlarmExtra(timeAgoFinished: int): (extra: Option<int>)
    ensures extra.Some? <==> timeAgoFinished > 0
    ensures extra.Some? ==> extra.value == timeAgoFinished
  {
    if timeAgoFinished > 0 then Some(timeAgoFinished) else None
  }

  /** `calculateResumedRemainingTime`: the saved remaining time less the wall
      clock time since it was saved. */
  function CalculateResumedRemainingTime(savedSystemTime: int, savedRemainingTime: int, now: int): (resumed: int)
    ensures resumed + (now - savedSystemTime) == savedRemainingTime
    ensures resumed > 0 <==> now - savedSystemTime < savedRemainingTime
    ensures resumed <= savedRemainingTime <==> now >= savedSystemTime
  {
    savedRemainingTime - (now - savedSystemTime)
  }

  /** What `onAfterReboot` chooses to do with the stored snapshot. */
  datatype Recovery =
    | Discard
    | ResumeFrom(resumedMillis: int, restoredSystemTime: int)
    | Overdue(timeAgoFinished: int)

  function RecoveryDecision(p: Prefs, now: int): (d: Recovery)
    requires WellTyped(p)
    ensures d.Discard? <==> StoredStoppedFlag(p) || StoredRemainingTime(p) <= 0
    ensures d.ResumeFrom? ==> d.resumedMillis > 0 && d.restoredSystemTime == StoredSystemTime(p)
    ensures d.Overdue? ==> d.timeAgoFinished >= 0
  {
    var restoredRemainingTime := StoredRemainingTime(p);
    var restoredIsLastTimerStoppedFlag := StoredStoppedFlag(p);
    if !restoredIsLastTimerStoppedFlag && restoredRemainingTime > 0 then
      var restoredSystemTime := StoredSystemTime(p);
      var resumed := CalculateResumedRemainingTime(restoredSystemTime, restoredRemainingTime, now);
      if resumed > 0 then ResumeFrom(resumed, restoredSystemTime) else Overdue(-resumed)
    else
      Discard
  }

  /** Everything the service's steps read and write: the shared remaining
      time, whether the tick loop and its collector are alive, the
      preferences file, and the signals sent so far. */
  datatype ServiceState = ServiceState(remaining: int, ticking: bool, prefs: Prefs, signals: seq<Signal>)

  /** The stored snapshot is saved and removed as a pair: a stored remaining
      time always comes with the wall-clock time of its save. */
  predicate Consistent(s: ServiceState) {
    WellTyped(s.prefs) && (KeyRemainingTime in s.prefs ==> KeySystemTime in s.prefs)
  }

  /** `endTimerForegroundService`: remove the three keys, zero the remaining time. */
  function Ended(s: ServiceState): ServiceState
    requires Consistent(s)
  {
    s.(remaining := 0, prefs := Cleared(s.prefs))
  }

  /** `startTimerFinishedAlarmService(timeAgoFinished)` */
  function Alarmed(s: ServiceState, timeAgoFinished: int): ServiceState {
    s.(signals := s.signals + [FinishedAlarm(AlarmExtra(timeAgoFinished))])
  }

  /** `setTimer(totalMillis)` up to the collector's first save. */
  function TimerSet(s: ServiceState, totalMillis: int, now: int): ServiceState
    requires Consistent(s)
  {
    s.(remaining := totalMillis, ticking := true, prefs := SaveSnapshot(s.prefs, now, totalMillis))
  }

  /** `stopTimerForegroundService` */
  function Stopped(s: ServiceState): ServiceState {
    s.(ticking := false, prefs := s.prefs[KeyTimerStoppedFlag := BoolValue(true)])
  }

  /** `resetTimerForeground` */
  function ResetDone(s: ServiceState): ServiceState
    requires Consistent(s)
  {
    Ended(s.(ticking := false))
  }

  /** One pass of the tick loop's body at wall-clock time `now`, with the
      collector's save of the new value. */
  function Ticked(s: ServiceState, now: int): ServiceState
    requires Consistent(s)
  {
    var r := s.remaining - TickMillis;
    s.(remaining := r, prefs := SaveSnapshot(s.prefs, now, r), signals := s.signals + TickSignals(r))
  }

  /** The state when the loop condition first fails, the `k`-th tick having
      happened at `clock(k)`. */
  function CountedDown(s: ServiceState, clock: nat -> int): ServiceState
    requires Consistent(s)
  {
    RunFrom(s, clock, 0)
  }

  /** The rest of a run in which `done` ticks have already happened: the
      remaining ticks happen at `clock(done)`, `clock(done + 1)`, and so on. */
  function RunFrom(s: ServiceState, clock: nat -> int, done: nat): ServiceState
    requires Consistent(s)
  {
    s.(remaining := FinalRemaining(s.remaining),
       prefs := FinalPrefs(s.prefs, clock, done, s.remaining),
       signals := s.signals + CountdownSignals(s.remaining))
  }

  /** The file at the end of a run from `r` after `done` ticks: the last
      tick's save, or the file unchanged if no tick remains. */
  function FinalPrefs(p: Prefs, clock: nat -> int, done: nat, r: int): Prefs
    requires WellTyped(p)
  {
    var n := TicksToFinish(r);
    if n == 0 then p else SaveSnapshot(p, clock(done + n - 1), FinalRemaining(r))
  }

  /** After the loop: cancel both jobs, then the finish callback every
      `setTimer` caller passes, the alarm and `endTimerForegroundService`. */
  function Finished(s: ServiceState): ServiceState
    requires Consistent(s)
  {
    Ended(Alarmed(s.(ticking := false), 0))
  }

  /** `onAfterReboot` at wall-clock time `now`. */
  function Recovered(s: ServiceState, now: int): ServiceState
    requires Consistent(s)
  {
    match RecoveryDecision(s.prefs, now)
    case Discard => Ended(s)
    case ResumeFrom(m, t) =>
      var s' := TimerSet(s, m, now);
      s'.(signals := s'.signals + [ResumeNotification(t, now)])
    case Overdue(t) => Ended(Alarmed(s, t))
  }

  /** `onBeforeActiveServiceStopped` at wall-clock time `now`. */
  function BeforeStopped(s: ServiceState, now: int): ServiceState
    requires Consistent(s)
  {
    if s.remaining > 0 then s.(prefs := SaveSnapshot(s.prefs, now, s.remaining)) else Ended(s)
  }

  /** `onStartCommand`: `redelivered` is the `START_FLAG_REDELIVERY` bit. */
  function Handled(s: ServiceState, cmd: Command, redelivered: bool, now: int): ServiceState
    requires Consistent(s)
  {
    match cmd
    case Start(extra) => if redelivered then Recovered(s, now) else TimerSet(s, StartMillis(extra), now)
    case Resume => TimerSet(s, s.remaining, now)
    case Stop => Stopped(s)
    case Reset => ResetDone(s)
    case AfterReboot => Recovered(s, now)
    case Unrecognized => s
  }

  /** After `ticks` passes of the loop started in `s0`, finishing the run
      from `s` ends where the whole run from `s0` ends. */
  ghost predicate Progress(s0: ServiceState, s: ServiceState, ticks: nat, clock: nat -> int) {
    && Consistent(s0) && Consistent(s)
    && s.ticking == s0.ticking
    && ticks + TicksToFinish(s.remaining) == TicksToFinish(s0.remaining)
    && RunFrom(s, clock, ticks) == CountedDown(s0, clock)
  }

  /** A tick does not change where the run ends. */
  lemma TickKeepsEnd(s: ServiceState, clock: nat -> int, done: nat)
    requires Consistent(s) && s.remaining > 0
    ensures RunFrom(Ticked(s, clock(done)), clock, done + 1) == RunFrom(s, clock, done)
  {
    var r := s.remaining - TickMillis;
    assert s.signals + CountdownSignals(s.remaining) == (s.signals + TickSignals(r)) + CountdownSignals(r);
    TickKeepsFinalPrefs(s.prefs, clock, done, s.remaining);
  }

  /** The same for the file alone: the tick's own save is overwritten by the
      last tick's save, unless it is the last tick. */
  lemma TickKeepsFinalPrefs(p: Prefs, clock: nat -> int, done: nat, r: int)
    requires WellTyped(p) && r > 0
    ensures FinalPrefs(SaveSnapshot(p, clock(done), r - TickMillis), clock, done + 1, r - TickMillis)
         == FinalPrefs(p, clock, done, r)
  {
    var r', n' := r - TickMillis, TicksToFinish(r - TickMillis);
    if n' > 0 {
      SnapshotOverwrite(p, clock(done), r', clock(done + n'), FinalRemaining(r'));
    }
  }

  /** The loop invariant survives one more tick. */
  lemma ProgressStep(s0: ServiceState, s: ServiceState, ticks: nat, clock: nat -> int)
    requires Progress(s0, s, ticks, clock) && s.remaining > 0
    ensures Progress(s0, Ticked(s, clock(ticks)), ticks + 1, clock)
  {
    TickKeepsEnd(s, clock, ticks);
  }

  /** A second snapshot replaces the first. */
  lemma SnapshotOverwrite(p: Prefs, t1: int, r1: int, t2: int, r2: int)
    requires WellTyped(p)
    ensures SaveSnapshot(SaveSnapshot(p, t1, r1), t2, r2) == SaveSnapshot(p, t2, r2)
  {
  }

  /** When the loop condition fails, the run is over and the state is its end. */
  lemma ProgressDone(s0: ServiceState, s: ServiceState, ticks: nat, clock: nat -> int)
    requires Progress(s0, s, ticks, clock) && s.remaining <= 0
    ensures ticks == TicksToFinish(s0.remaining)
    ensures s == CountedDown(s0, clock)
  {
    assert s.signals + CountdownSignals(s.remaining) == s.signals;
  }

  /** The service object. `remaining` is the process-wide `remainingTime`
      flow, `ticking` stands for the live `timerJob` and
      `remainingTimeCollectorJob`, and `signals` records the notifications and
      alarm starts the service has sent. */
  class TimerService {
    const store: TimerSharedPrefHelper
    var remaining: int
    var ticking: bool
    var signals: seq<Signal>

    ghost predicate Valid()
      reads this, store
    {
      Consistent(State())
    }

    function State(): ServiceState
      reads this, store
    {
      ServiceState(remaining, ticking, store.prefs, signals)
    }

    /** A fresh process: the remaining time starts at 0, nothing runs, and the
        file holds whatever an earlier process left in it. */
    constructor (store: TimerSharedPrefHelper)
      requires Consistent(ServiceState(0, false, store.prefs, []))
      ensures Valid() && this.store == store
      ensures State() == ServiceState(0, false, store.prefs, [])
    {
      this.store := store;
      remaining := 0;
      ticking := false;
      signals := [];
    }

    method OnStartCommand(cmd: Command, redelivered: bool, now: int)
      requires Valid()
      modifies this, store
      ensures Valid()
      ensures State() == Handled(old(State()), cmd, redelivered, now)
    {
      match cmd
      case Start(extra) =>
        if redelivered {
          OnAfterReboot(now);
        } else {
          SetTimer(StartMillis(extra), now);
        }
      case Resume =>
        SetTimer(remaining, now);
      case Stop =>
        StopTimerForegroundService();
      case Reset =>
        ResetTimerForeground();
      case AfterReboot =>
        OnAfterReboot(now);
      case Unrecognized =>
    }

    method StopTimerForegroundService()
      requires Valid()
      modifies this, store
      ensures Valid()
      ensures State() == Stopped(old(State()))
    {
      ticking := false;
      store.SaveTimerStoppedFlag(true);
    }

    method ResetTimerForeground()
      requires Valid()
      modifies this, store
      ensures Valid()
      ensures State() == ResetDone(old(State()))
    {
      ticking := false;
      EndTimerForegroundService();
    }

    method EndTimerForegroundService()
      requires Valid()
      modifies this, store
      ensures Valid()
      ensures State() == Ended(old(State()))
    {
      store.RemoveRemainingTimerTime();
      store.RemoveSystemTimerTime();
      store.RemoveTimerStoppedFlag();
      assert store.prefs == Cleared(old(store.prefs));
      remaining := 0;
    }

    method OnAfterReboot(now: int)
      requires Valid()
      modifies this, store
      ensures Valid()
      ensures State() == Recovered(old(State()), now)
    {
      var restoredRemainingTime := store.RestoreRemainingTimerTime();
      var restoredIsLastTimerStoppedFlag := store.RestoreTimerStoppedFlag();
      if !restoredIsLastTimerStoppedFlag && restoredRemainingTime > 0 {
        var restoredSystemTime := store.RestoreSystemTimerTime();
        var resumedRemainingTime := CalculateResumedRemainingTime(restoredSystemTime, restoredRemainingTime, now);
        if resumedRemainingTime > 0 {
          SetTimer(resumedRemainingTime, now);
          signals := signals + [ResumeNotification(restoredSystemTime, now)];
        } else {
          StartTimerFinishedAlarmService(-resumedRemainingTime);
          EndTimerForegroundService();
        }
      } else {
        EndTimerForegroundService();
      }
    }

    /** Sets the remaining time and starts the loop; the collector's first
        emission saves the new value at once. The loop itself is `RunTimer`. */
    method SetTimer(totalMillis: int, now: int)
      requires Valid()
      modifies this, store
      ensures Valid()
      ensures State() == TimerSet(old(State()), totalMillis, now)
    {
      remaining := totalMillis;
      ticking := true;
      store.SaveSystemTimerTime(now);
      store.SaveRemainingTimerTime(remaining);
    }

    method Tick(now: int)
      requires Valid() && ticking && remaining > 0
      modifies this, store
      ensures Valid()
      ensures State() == Ticked(old(State()), now)
    {
      remaining := remaining - TickMillis;
      var remainingMillis := remaining;
      var remainingSeconds := Quot(remainingMillis, 1000);
      if Rem(remainingSeconds, 60) == 0 {
        var remainingMinutes := Quot(remainingMillis, 60000);
        if remainingMinutes > 0 {
          signals := signals + [MinuteNotification(remainingMinutes)];
        }
      }
      store.SaveSystemTimerTime(now);
      store.SaveRemainingTimerTime(remaining);
    }

    /** The `while` loop of `setTimer`, uninterrupted; the `k`-th tick happens
        at wall-clock time `clock(k)`. */
    method CountDown(clock: nat -> int) returns (ticks: nat)
      requires Valid() && ticking
      modifies this, store
      ensures Valid() && ticking
      ensures ticks == TicksToFinish(old(remaining))
      ensures State() == CountedDown(old(State()), clock)
    {
      ghost var s0 := State();
      ticks := 0;
      while remaining > 0
        invariant Valid() && Progress(s0, State(), ticks, clock)
        decreases remaining
      {
        ProgressStep(s0, State(), ticks, clock);
        Tick(clock(ticks));
        ticks := ticks + 1;
      }
      ProgressDone(s0, State(), ticks, clock);
    }

    /** The coroutine `setTimer` launches: the loop, then both jobs cancelled and
        the finish callback. */
    method RunTimer(clock: nat -> int) returns (ticks: nat)
      requires Valid() && ticking
      modifies this, store
      ensures Valid()
      ensures ticks == TicksToFinish(old(remaining))
      ensures State() == Finished(CountedDown(old(State()), clock))
    {
      ticks := CountDown(clock);
      ticking := false;
      StartTimerFinishedAlarmService(0);
      EndTimerForegroundService();
    }

    method StartTimerFinishedAlarmService(timeAgoFinished: int)
      requires Valid()
      modifies this
      ensures Valid()
      ensures State() == Alarmed(old(State()), timeAgoFinished)
    {
      signals := signals + [FinishedAlarm(AlarmExtra(timeAgoFinished))];
    }

    method OnBeforeActiveServiceStopped(now: int)
      requires Valid()
      modifies this, store
      ensures Valid()
      ensures State() == BeforeStopped(old(State()), now)
    {
      var remainingTime := remaining;
      if remainingTime > 0 {
        store.SaveSystemTimerTime(now);
        store.SaveRemainingTimerTime(remainingTime);
      } else {
        EndTimerForegroundService();
      }
    }
  }
}
