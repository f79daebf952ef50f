/** Whole runs of the service object against its store: each method builds a
    fresh file and service, sends the commands of one story, and states what
    the user ends up with. A second `TimerService` over the same store stands
    for the process that starts after the first one was killed. */
module Scenarios {
  import opened Kotlin
  import opened TimerPrefs
  import opened Countdown
  import opened TimerServiceModel
  import TimerAlarm

  /** Start one minute and let it run out: sixty ticks, no minute
      notification, the alarm without an overdue amount, and nothing left in
      memory or in the file. */
  method StartOneMinuteAndFinish(now: int, clock: nat -> int)
    returns (ticks: nat, remaining: int, signals: seq<Signal>, prefs: Prefs)
    ensures ticks == 60 && remaining == 0
    ensures signals == [FinishedAlarm(None)] && prefs == map[]
  {
    var store := new TimerSharedPrefHelper();
    var service := new TimerService(store);
    service.OnStartCommand(Start(Some(1)), false, now);
    StartRunsExactly(1);
    StartMinuteNotifications(1);
    ticks := service.RunTimer(clock);
    remaining, signals, prefs := service.remaining, service.signals, store.prefs;
  }

  /** Start five minutes, let two minutes tick away (one tick a second from
      `now`), kill the process while three minutes remain, and redeliver the
      Start two minutes later: the new process resumes with one minute. */
  method KilledAndResumed(now: int)
    returns (firstSignals: seq<Signal>, remaining: int, signals: seq<Signal>)
    ensures firstSignals == [MinuteNotification(4), MinuteNotification(3)]
    ensures remaining == 60000
    ensures signals == [ResumeNotification(now + 120000, now + 240000)]
  {
    var store := new TimerSharedPrefHelper();
    var service := new TimerService(store);
    service.OnStartCommand(Start(Some(5)), false, now);
    TickTwoMinutes(service, now);
    firstSignals := service.signals;

    var killedAt := now + 120000;
    service.OnBeforeActiveServiceStopped(killedAt);
    var next := new TimerService(store);
    next.OnStartCommand(Start(Some(5)), true, killedAt + 120000);
    remaining, signals := next.remaining, next.signals;
  }

  /** The first 120 ticks of a five-minute run, the `k`-th at `now + 1000 * (k + 1)`. */
  method TickTwoMinutes(service: TimerService, now: int)
    requires service.Valid() && service.ticking && service.remaining == 300000 && service.signals == []
    requires KeyTimerStoppedFlag !in service.store.prefs
    modifies service, service.store
    ensures service.Valid() && service.ticking && service.remaining == 180000
    ensures KeyTimerStoppedFlag !in service.store.prefs
    ensures service.signals == [MinuteNotification(4), MinuteNotification(3)]
  {
    var clock := (k: nat) => now + TickMillis * (k + 1);
    ghost var s0 := service.State();
    var k := 0;
    while k < 120
      invariant 0 <= k <= 120
      invariant service.Valid() && Progress(s0, service.State(), k, clock)
    {
      ProgressStep(s0, service.State(), k, clock);
      service.Tick(clock(k));
      k := k + 1;
    }
    StartMinuteNotifications(5);
    FirstTwoMinutes(service.signals);
  }

  /** The notifications posted before three minutes remain of a five-minute run. */
  lemma FirstTwoMinutes(posted: seq<Signal>)
    requires posted + CountdownSignals(180000) == MinuteCountdown(4)
    ensures posted == [MinuteNotification(4), MinuteNotification(3)]
  {
    WholeSecondsSignals(180);
    assert MinuteCountdown(4) == [MinuteNotification(4), MinuteNotification(3)] + MinuteCountdown(2);
    assert posted == (posted + MinuteCountdown(2))[..2];
  }

  /** Start one minute, kill the process at once, and boot five minutes
      later: the alarm fires at once, four minutes overdue, and says so. */
  method OverdueAfterReboot(now: int)
    returns (remaining: int, signals: seq<Signal>, prefs: Prefs, message: string)
    ensures remaining == 0 && prefs == map[]
    ensures signals == [FinishedAlarm(Some(240000))]
    ensures message == "Таймер завершился: 4 минут назад!"
  {
    var store := new TimerSharedPrefHelper();
    var service := new TimerService(store);
    service.OnStartCommand(Start(Some(1)), false, now);
    service.OnBeforeActiveServiceStopped(now);
    var next := new TimerService(store);
    next.OnStartCommand(AfterReboot, false, now + 300000);
    remaining, signals, prefs := next.remaining, next.signals, store.prefs;
    var extra := signals[0].timeAgoFinishedExtra;
    message := TimerAlarm.AlarmMessage(TimerAlarm.ReadTimeAgoFinished(extra));
    TimerAlarm.FourMinutesOverdue();
  }

  /** Start two minutes, stop, let the process go away, and boot: nothing is
      resumed and no alarm fires. */
  method StoppedStaysStopped(now: int, killedAt: int, bootedAt: int)
    returns (remaining: int, signals: seq<Signal>, prefs: Prefs)
    ensures remaining == 0 && signals == [] && prefs == map[]
  {
    var store := new TimerSharedPrefHelper();
    var service := new TimerService(store);
    service.OnStartCommand(Start(Some(2)), false, now);
    service.OnStartCommand(Stop, false, now);
    service.OnBeforeActiveServiceStopped(killedAt);
    var next := new TimerService(store);
    next.OnStartCommand(AfterReboot, false, bootedAt);
    remaining, signals, prefs := next.remaining, next.signals, store.prefs;
  }
}
