# Timer: a verified model of the countdown service

Timer is an Android countdown app. The user types a number of minutes
(at most two digits) and presses Start. A foreground `TimerService` then
counts down one second at a time and posts a notification at each whole
minute. At zero it asks `TimerAlarmService` to ring and show "Таймер
завершился!". Stop pauses the countdown and Resume continues it. Reset
clears everything.

Each tick, the remaining time is saved together with the wall-clock time in
the shared-preferences file "timer_prefs". A third key records an explicit
Stop. After a reboot, or when Android redelivers the Start intent to a new
process, the service reads that snapshot. It subtracts the wall-clock time
that has passed since the snapshot was saved. It then resumes, or it rings
at once and says how long ago the timer finished ("… 4 минут назад!").

The model is written in Dafny and has these modules:

- `Kotlin` (kotlin.dfy) covers the runtime behaviour the app relies on:
  - `Long` `/` and `%` truncate toward zero (`Quot`, `Rem`);
  - an `Int` product wraps around at 32 bits (`WrapInt`);
  - decimal rendering (`LongToString`) and `String.toIntOrNull`.
- `Arithmetic` (arithmetic.dfy) holds the division facts that the proofs use.
- `TimerPrefs` (timer_prefs.dfy) is the preference file: a map from key to
  value. The class `TimerSharedPrefHelper` updates it in place, with one
  save, restore and remove method per key.
- `Countdown` (countdown.dfy) describes an uninterrupted run of the tick loop
  from a starting value: how many ticks it takes, where it stops, and which
  minute notifications it posts.
- `TimerServiceModel` (timer_service.dfy) is the service.
  - Functions on `ServiceState` describe each step's effect on the whole
    state: the remaining time, whether the loop runs, the file, and the
    signals sent so far.
  - The class `TimerService` runs the same steps on its fields and its store.
    Each method is proved to agree with its function.
  - The tick loop is a `while` loop with an invariant.
- `TimerAlarm` (timer_alarm.dfy) covers `formatDuration` and the choice of
  alarm message.
- `MainActivity` (main_activity.dfy) covers `formatTime`, the minutes input
  filter and the Start, Stop and Reset button rules.
- `Lifecycle` (lifecycle.dfy) holds properties that link several steps:
  exact starts, whole runs, stop, reset, the save before the process dies,
  and recovery in the next process.
- `Scenarios` (scenarios.dfy) holds whole stories run against the class
  objects. A second `TimerService` over the same store plays the new process.

The wall clock is a parameter `now`. During a run, the `k`-th tick happens at
`clock(k)`. The coroutine collector that saves every new remaining time is
modelled as a synchronous save, once when `setTimer` sets the value and once
after every tick.

Some behaviours of the code are worth knowing. The model has them, and the
lemmas named here prove them:

- The stop flag is set only by Stop. It is removed by every path that ends
  the service: a finish, a reset, a recovery that discards or rings, and the
  save before the process dies when no time is left. Resume, Start and a
  recovery that resumes leave it alone. A countdown that was stopped
  and then resumed is therefore thrown away, not resumed, if its process is
  killed and recovered (`Lifecycle.StopFlagSurvivesResume`).
- Start is the only action whose handling depends on the redelivery flag.
  A redelivered Start recovers. A redelivered `AfterReboot` recovers like
  any `AfterReboot`. A redelivered Resume restarts from the in-memory time.
  In a new process that time is 0, so it rings at once and erases the stored
  snapshot (`Lifecycle.RedeliveredResumeInFreshProcess`).
- `minutes * 60` is an `Int` product. An intent carrying 35791395 minutes or
  more wraps around and can start from a negative time
  (`Lifecycle.StartMinutesWrap`). The screen only sends 1 to 99 minutes
  (`MainActivity.ScreenStartIsExact`).

Three behaviours of the code are easy to get wrong. The model follows the
code in each:

- A wall clock that went backwards is not clamped during recovery. The
  resumed time grows by the amount the clock went back
  (`Lifecycle.BackwardClockNotClamped`).
- The last tick is not clamped to 0. A run from a value that is not a whole
  number of seconds stops between -1000 and 0 (`Lifecycle.AnyRunEnds`). The
  screen still shows `00:00` then (`MainActivity.FormatTimeAtEndOfRun`).
- The resume branch of recovery does not clear the file. Its first save
  overwrites the snapshot with the resumed value (`Lifecycle.ElapsedCorrection`).

## Model

Source paths are relative to the repository root. All functions about the
service state are in `TimerServiceModel`. Each method row states the
function it is proved equal to, and the `Lifecycle` rows state what those
functions do.

| member | source | states |
|---|---|---|
| `Kotlin.WrapInt` | app/src/main/java/com/timer/services/TimerService.kt:49 | the `Int` result differs from the exact product by a multiple of 2^32, and equals it when it is in `Int` range |
| `Kotlin.Quot` | app/src/main/java/com/timer/services/TimerService.kt:193 | `Long` division truncates toward zero: Euclidean for a non-negative dividend, otherwise minus the quotient of the negated dividend |
| `Kotlin.Rem` | app/src/main/java/com/timer/services/TimerService.kt:195 | `Long` remainder takes the dividend's sign: Euclidean for a non-negative dividend, otherwise in (`-d`, 0]; with `Quot` it always rebuilds the dividend, `a == d * Quot(a, d) + r` |
| `Kotlin.LongToString` | app/src/main/java/com/timer/services/TimerAlarmService.kt:109 | the canonical decimal text: non-empty, its digits read back as the number, no leading zero, one character exactly for 0 to 9, and a leading minus sign exactly for a negative number |
| `Kotlin.ToIntOrNull` | app/src/main/java/com/timer/MainActivity.kt:121 | an all-digit text gives its value when that fits in an `Int` and null otherwise; a sign followed by digits gives the signed value when it fits, null otherwise; a lone sign, any other character or the empty text gives null |
| `Kotlin.IntToStringRoundTrip` | app/src/main/java/com/timer/MainActivity.kt:129 | parsing the rendering of any `Int` gives that `Int` back |
| `TimerPrefs.GetLong` | app/src/main/java/com/timer/services/TimerSharedPrefHelper.kt:40 | a stored long is returned as is; a missing key gives the default |
| `TimerPrefs.GetBoolean` | app/src/main/java/com/timer/services/TimerSharedPrefHelper.kt:74 | a stored boolean is returned as is; a missing key gives the default |
| `TimerPrefs.SaveSnapshot` | app/src/main/java/com/timer/services/TimerService.kt:175-178 | after the pair of saves, the file reads back the clock value and the remaining time, and the stop flag is unchanged |
| `TimerPrefs.Cleared` | app/src/main/java/com/timer/services/TimerService.kt:118-120 | removing the three keys leaves an empty file |
| `TimerPrefs.TimerSharedPrefHelper.constructor` | app/src/main/java/com/timer/services/TimerSharedPrefHelper.kt:26 | a file never written to is empty |
| `TimerPrefs.TimerSharedPrefHelper.SaveSystemTimerTime` | app/src/main/java/com/timer/services/TimerSharedPrefHelper.kt:31-36 | the system-time key is set to the clock value at the moment of the save; nothing else changes |
| `TimerPrefs.TimerSharedPrefHelper.RestoreSystemTimerTime` | app/src/main/java/com/timer/services/TimerSharedPrefHelper.kt:38-41 | returns the stored system time, or 0 when the key is missing |
| `TimerPrefs.TimerSharedPrefHelper.RemoveSystemTimerTime` | app/src/main/java/com/timer/services/TimerSharedPrefHelper.kt:43-46 | only the system-time key is removed |
| `TimerPrefs.TimerSharedPrefHelper.SaveRemainingTimerTime` | app/src/main/java/com/timer/services/TimerSharedPrefHelper.kt:48-53 | the remaining-time key is set to the given time; nothing else changes |
| `TimerPrefs.TimerSharedPrefHelper.RestoreRemainingTimerTime` | app/src/main/java/com/timer/services/TimerSharedPrefHelper.kt:55-58 | returns the stored remaining time, or 0 when the key is missing |
| `TimerPrefs.TimerSharedPrefHelper.RemoveRemainingTimerTime` | app/src/main/java/com/timer/services/TimerSharedPrefHelper.kt:60-63 | only the remaining-time key is removed |
| `TimerPrefs.TimerSharedPrefHelper.SaveTimerStoppedFlag` | app/src/main/java/com/timer/services/TimerSharedPrefHelper.kt:65-70 | the flag key is set to the given flag; nothing else changes |
| `TimerPrefs.TimerSharedPrefHelper.RestoreTimerStoppedFlag` | app/src/main/java/com/timer/services/TimerSharedPrefHelper.kt:72-75 | returns the stored flag, or false when the key is missing |
| `TimerPrefs.TimerSharedPrefHelper.RemoveTimerStoppedFlag` | app/src/main/java/com/timer/services/TimerSharedPrefHelper.kt:77-80 | only the flag key is removed |
| `TimerPrefs.SaveRestoreRoundTrip` | app/src/main/java/com/timer/services/TimerSharedPrefHelper.kt:48-58 | restoring after a save returns the saved system time, remaining time or flag |
| `TimerPrefs.RemovedKeysRestoreDefaults` | app/src/main/java/com/timer/services/TimerSharedPrefHelper.kt:38-80 | a removed or never-written key restores as 0, 0 or false |
| `TimerPrefs.KeysIndependent` | app/src/main/java/com/timer/services/TimerSharedPrefHelper.kt:27-29 | saving or removing one key leaves the other two readings unchanged |
| `TimerPrefs.LastWriteWins` | app/src/main/java/com/timer/services/TimerSharedPrefHelper.kt:31-70 | a second save to the same key replaces the first |
| `TimerPrefs.RemoveAllIdempotent` | app/src/main/java/com/timer/services/TimerSharedPrefHelper.kt:43-80 | removing all three keys empties the file, and clearing twice is clearing once |
| `Countdown.TicksToFinish` | app/src/main/java/com/timer/services/TimerService.kt:188-190 | the number of ticks is the least `n` with `r - 1000 * n <= 0`: 0 for `r <= 0`, otherwise `1000 * (n - 1) < r <= 1000 * n` |
| `Countdown.FinalRemaining` | app/src/main/java/com/timer/services/TimerService.kt:188-190 | the loop stops at `r - 1000 * n`, which lies in (-1000, 0] for a positive start, with no clamping |
| `Countdown.CountdownSignals` | app/src/main/java/com/timer/services/TimerService.kt:188-203 | a run posts nothing from a non-positive start, at most one signal per tick, and only minute notifications for a positive number of minutes |
| `Countdown.IsMinuteBoundary` | app/src/main/java/com/timer/services/TimerService.kt:192-197 | the truncating-division test posts a notification after a tick leaving `r` if and only if `r >= 60000` and `r mod 60000 < 1000` |
| `Countdown.WholeSecondsRun` | app/src/main/java/com/timer/services/TimerService.kt:188-190 | from `1000 * s` the loop runs exactly `s` ticks and stops at 0 |
| `Countdown.StartRunsExactly` | app/src/main/java/com/timer/services/TimerService.kt:188-190 | from `n` minutes the loop runs exactly `n * 60` ticks and stops at 0 |
| `Countdown.WholeSecondsSignals` | app/src/main/java/com/timer/services/TimerService.kt:192-202 | from `1000 * s` the loop announces the minutes `(s - 1) / 60` down to 1, once each and in order |
| `Countdown.RunSignals` | app/src/main/java/com/timer/services/TimerService.kt:188-203 | from any start `r`, whole number of seconds or not, the loop announces the minutes `(r - 1000) / 60000` down to 1, once each and in order |
| `Countdown.StartMinuteNotifications` | app/src/main/java/com/timer/services/TimerService.kt:192-202 | a run of `n` minutes announces the minutes `n - 1` down to 1, once each and in order |
| `TimerServiceModel.StartMillis` | app/src/main/java/com/timer/services/TimerService.kt:49 | a missing extra gives 0; `m` minutes give `m * 60000` when `m * 60` fits in an `Int`; the result is always a whole number of seconds |
| `TimerServiceModel.AlarmExtra` | app/src/main/java/com/timer/services/TimerService.kt:214-215 | the overdue amount is put on the alarm intent exactly when it is positive |
| `TimerServiceModel.CalculateResumedRemainingTime` | app/src/main/java/com/timer/services/TimerService.kt:228-234 | the resumed time plus the elapsed wall-clock time is the saved time; it is positive exactly when less time passed than was left, and no larger than the saved time exactly when the clock did not go back |
| `TimerServiceModel.RecoveryDecision` | app/src/main/java/com/timer/services/TimerService.kt:126-167 | the snapshot is discarded exactly when the flag is set or the stored time is not positive; a resume has a positive time and carries the stored save time; an overdue amount is never negative |
| `TimerServiceModel.TimerService.constructor` | app/src/main/java/com/timer/services/TimerService.kt:34 | a new process starts with remaining time 0, no loop and no signals, over the file as it was left |
| `TimerServiceModel.TimerService.OnStartCommand` | app/src/main/java/com/timer/services/TimerService.kt:43-84 | the new state is `Handled`: a redelivered Start recovers; Start sets the intent's milliseconds; Resume restarts from the in-memory time; the other actions stop, reset or recover; an unknown action changes nothing |
| `TimerServiceModel.TimerService.StopTimerForegroundService` | app/src/main/java/com/timer/services/TimerService.kt:103-109 | the new state is `Stopped`: the loop is cancelled and the stop flag is saved as true |
| `TimerServiceModel.TimerService.ResetTimerForeground` | app/src/main/java/com/timer/services/TimerService.kt:111-115 | the new state is `ResetDone`: the loop is cancelled, then the state ends as `Ended` |
| `TimerServiceModel.TimerService.EndTimerForegroundService` | app/src/main/java/com/timer/services/TimerService.kt:117-124 | the new state is `Ended`: the three keys are removed and the remaining time is 0 |
| `TimerServiceModel.TimerService.OnAfterReboot` | app/src/main/java/com/timer/services/TimerService.kt:126-167 | the new state is `Recovered`: discard, resume from the corrected time with a resume notice, or ring overdue and clear |
| `TimerServiceModel.TimerService.SetTimer` | app/src/main/java/com/timer/services/TimerService.kt:183-187 | the new state is `TimerSet`: the remaining time is the given time, the loop runs, and the collector saves that time with the clock |
| `TimerServiceModel.TimerService.Tick` | app/src/main/java/com/timer/services/TimerService.kt:189-203 | the new state is `Ticked`: 1000 ms less, the minute notification when due, and the new value saved with the tick's time |
| `TimerServiceModel.TimerService.CountDown` | app/src/main/java/com/timer/services/TimerService.kt:188-204 | the loop makes exactly `TicksToFinish` ticks and ends in the state `CountedDown` describes: final value, every minute notification, and the last tick's save |
| `TimerServiceModel.TimerService.RunTimer` | app/src/main/java/com/timer/services/TimerService.kt:186-208 | after the loop, both jobs are cancelled, the alarm is asked for without an overdue amount, and the state ends |
| `TimerServiceModel.TimerService.StartTimerFinishedAlarmService` | app/src/main/java/com/timer/services/TimerService.kt:211-218 | one alarm request is sent, with the overdue amount only when it is positive |
| `TimerServiceModel.TimerService.OnBeforeActiveServiceStopped` | app/src/main/java/com/timer/services/TimerService.kt:236-244 | the new state is `BeforeStopped`: save the remaining time with the clock when it is positive, otherwise end |
| `TimerServiceModel.TickKeepsEnd` | app/src/main/java/com/timer/services/TimerService.kt:188-204 | one tick does not change where the run ends: the loop invariant of `CountDown` |
| `TimerAlarm.ReadTimeAgoFinished` | app/src/main/java/com/timer/services/TimerAlarmService.kt:33 | a missing extra reads as 0; a present one is returned as is |
| `TimerAlarm.PartsOf` | app/src/main/java/com/timer/services/TimerAlarmService.kt:107-114 | the list of parts is never empty |
| `TimerAlarm.PartsAmounts` | app/src/main/java/com/timer/services/TimerAlarmService.kt:109-113 | every part carries its own unit's amount |
| `TimerAlarm.PartsOrdered` | app/src/main/java/com/timer/services/TimerAlarmService.kt:109-113 | the parts come in the order years, days, hours, minutes, seconds |
| `TimerAlarm.PartsPresence` | app/src/main/java/com/timer/services/TimerAlarmService.kt:109-113 | a unit other than seconds appears if and only if its amount is positive; seconds appear if and only if they are positive or no larger unit is |
| `TimerAlarm.DurationComponents` | app/src/main/java/com/timer/services/TimerAlarmService.kt:101-105 | for a non-negative duration, seconds and minutes are below 60, hours below 24, days below 365, and years are whole days divided by 365; for a negative one every component is at most 0 |
| `TimerAlarm.Reconstruction` | app/src/main/java/com/timer/services/TimerAlarmService.kt:101-105 | the components put back together give the duration to within the dropped milliseconds |
| `TimerAlarm.FormatDuration` | app/src/main/java/com/timer/services/TimerAlarmService.kt:100-117 | the text is never empty and opens with the rendering of the first part, the largest unit present |
| `TimerAlarm.FormatDurationWords` | app/src/main/java/com/timer/services/TimerAlarmService.kt:107-116 | cutting the text at its spaces gives, for every part and in order, the amount in decimal followed by its unit word; no part is dropped |
| `TimerAlarm.SplitJoin` | app/src/main/java/com/timer/services/TimerAlarmService.kt:116 | `joinToString(" ")` of words without spaces is undone by cutting the text at its spaces |
| `TimerAlarm.WordsAt` | app/src/main/java/com/timer/services/TimerAlarmService.kt:109-114 | part `i` contributes its amount's decimal text at word `2 * i` and its unit word at word `2 * i + 1` |
| `TimerAlarm.SingularExactlyForOne` | app/src/main/java/com/timer/services/TimerAlarmService.kt:109-114 | each unit uses its singular word if and only if the amount is 1 |
| `TimerAlarm.AlarmMessage` | app/src/main/java/com/timer/services/TimerAlarmService.kt:83-87 | the plain message is shown if and only if the overdue amount is 0; otherwise the message is "Таймер завершился: ", the `formatDuration` text of the overdue amount, then " назад!" |
| `TimerAlarm.FourMinutesOverdue` | app/src/main/java/com/timer/services/TimerAlarmService.kt:100-116 | 240000 ms overdue is shown as "Таймер завершился: 4 минут назад!" |
| `MainActivity.Pad2` | app/src/main/java/com/timer/MainActivity.kt:176 | a non-negative number is rendered as at least two digits that read back as the number, exactly two for 0 to 99, and with no leading zero when longer |
| `MainActivity.FormatTime` | app/src/main/java/com/timer/MainActivity.kt:173-177 | for a non-negative time the text ends in ':' and two digits that read back as the seconds within the minute; the digits before it read back as the whole minutes and start with '0' only when there are exactly two of them |
| `MainActivity.FormatTimeParts` | app/src/main/java/com/timer/MainActivity.kt:173-176 | for a non-negative time the seconds are 0 to 59, the minutes are the whole minutes, and together they are the time to the second below |
| `MainActivity.FormatTimeShape` | app/src/main/java/com/timer/MainActivity.kt:176 | below 100 minutes the text is `mm:ss`: five characters, two digit pairs around ':', reading back as minutes and seconds |
| `MainActivity.FormatTimeAtEndOfRun` | app/src/main/java/com/timer/MainActivity.kt:173-176 | a final value between -1000 and 0 is shown as `00:00` |
| `MainActivity.OnEntered` | app/src/main/java/com/timer/MainActivity.kt:100-104 | the field takes the new text exactly when it has at most two characters, all digits, and otherwise keeps the old text; so it always holds at most two digits |
| `MainActivity.AcceptedInputParses` | app/src/main/java/com/timer/MainActivity.kt:100-121 | non-empty text the field keeps parses to a number from 0 to 99 |
| `MainActivity.OnRemainingChanged` | app/src/main/java/com/timer/MainActivity.kt:80-82 | the timer is shown as active if and only if the remaining time is positive; the typed text is kept |
| `MainActivity.StartButtonChoice` | app/src/main/java/com/timer/MainActivity.kt:119-123 | with time left, Start resumes whatever was typed; otherwise it starts if and only if the text parses to a positive number, and uses that number |
| `MainActivity.StartClick` | app/src/main/java/com/timer/MainActivity.kt:115-137 | nothing is sent while active; Resume exactly when inactive with time left; any Start carries the parsed, positive minutes |
| `MainActivity.StopClick` | app/src/main/java/com/timer/MainActivity.kt:143-152 | Stop is sent if and only if the timer is active, and the screen then shows it as inactive, keeping the typed text |
| `MainActivity.ResetClick` | app/src/main/java/com/timer/MainActivity.kt:157-165 | Reset is sent if and only if time is left |
| `MainActivity.ScreenStartIsExact` | app/src/main/java/com/timer/MainActivity.kt:119-129 | a Start sent by the screen carries 1 to 99 minutes, which the service turns into exactly that many minutes in milliseconds |
| `Lifecycle.StepsKeepConsistent` | app/src/main/java/com/timer/services/TimerService.kt:103-244 | every command, tick, run and save leaves a stored remaining time paired with its save time |
| `Lifecycle.StartIsExactMillis` | app/src/main/java/com/timer/services/TimerService.kt:45-57 | a Start with `m` minutes sets and saves exactly `m * 60000` with the current time and keeps the flag; the same Start redelivered is a recovery |
| `Lifecycle.StartMinutesWrap` | app/src/main/java/com/timer/services/TimerService.kt:49 | 35791395 minutes wrap to -2147483596000 ms, and the loop then makes no tick |
| `Lifecycle.TickStep` | app/src/main/java/com/timer/services/TimerService.kt:188-204 | a tick takes 1000 ms off, saves the new value with the tick's time, and posts the minute notification if and only if a whole minute has just begun |
| `Lifecycle.AnyRunEnds` | app/src/main/java/com/timer/services/TimerService.kt:188-190 | a run from any positive time makes at least one tick and stops in (-1000, 0]; the file then holds that value with the last tick's time |
| `Lifecycle.StartRunsToAlarm` | app/src/main/java/com/timer/services/TimerService.kt:183-208 | a Start of `n` minutes run to the end takes `n * 60` ticks, announces minutes `n - 1` to 1, rings with no overdue amount, and leaves 0 and an empty file |
| `Lifecycle.FinishAndResetClear` | app/src/main/java/com/timer/services/TimerService.kt:111-124 | reset and finish both leave remaining 0, no loop and an empty file; only the finish rings |
| `Lifecycle.EndIdempotent` | app/src/main/java/com/timer/services/TimerService.kt:117-124 | ending or resetting a second time changes nothing |
| `Lifecycle.StopWritesOnlyFlag` | app/src/main/java/com/timer/services/TimerService.kt:103-109 | Stop cancels the loop and sets the flag; the remaining time and every other key stay as they were |
| `Lifecycle.RecoveryNothingToResume` | app/src/main/java/com/timer/services/TimerService.kt:135-166 | with the flag set or no positive stored time, recovery clears the file and the remaining time, starts nothing and sends nothing |
| `Lifecycle.RecoveryOnEmptyStore` | app/src/main/java/com/timer/services/TimerService.kt:126-167 | recovering from an empty file only zeroes the remaining time |
| `Lifecycle.ElapsedCorrection` | app/src/main/java/com/timer/services/TimerService.kt:137-162 | with `R` saved at `T` and the clock at `T + e`: for `e < R` the timer resumes from `R - e`; otherwise it rings `e - R` overdue, with the amount attached only when positive |
| `Lifecycle.ResumeNoticeCarriesSavedTime` | app/src/main/java/com/timer/services/TimerService.kt:136-157 | when recovery resumes, the stored remaining time came with a stored save time, and the resume notice carries that time rather than a default |
| `Lifecycle.BackwardClockNotClamped` | app/src/main/java/com/timer/services/TimerService.kt:228-234 | a clock set back before the save makes the resumed time larger than the stored one, by exactly the amount the clock went back |
| `Lifecycle.BeforeStoppedSaves` | app/src/main/java/com/timer/services/TimerService.kt:236-244 | with time left, the save stores it with the clock and leaves the flag; otherwise it ends; Resume restarts from the in-memory time |
| `Lifecycle.KillAndRecover` | app/src/main/java/com/timer/services/TimerService.kt:249-256 | a running timer killed at `t1` and recovered at `t2` resumes with its time less `t2 - t1`, or rings with the overdue amount |
| `Lifecycle.StopThenRecoverDiscards` | app/src/main/java/com/timer/services/TimerService.kt:131-135 | a stopped timer is never resumed by a later recovery |
| `Lifecycle.StopFlagSurvivesResume` | app/src/main/java/com/timer/services/TimerService.kt:61-67 | after Stop and Resume the flag is still set, so a recovery after a kill discards the running countdown |
| `Lifecycle.RedeliveredResumeInFreshProcess` | app/src/main/java/com/timer/services/TimerService.kt:61-67 | a Resume redelivered to a new process makes no tick, rings at once and leaves an empty file |
| `Lifecycle.AlarmMessageForOverdue` | app/src/main/java/com/timer/services/TimerService.kt:211-216 | the alarm shows the plain message if and only if the overdue amount is not positive |
| `Scenarios.StartOneMinuteAndFinish` | app/src/main/java/com/timer/services/TimerService.kt:45-57 | Start(1) run to the end: 60 ticks, only the alarm, remaining 0 and an empty file |
| `Scenarios.KilledAndResumed` | app/src/main/java/com/timer/services/TimerService.kt:236-257 | Start(5) killed with 3 minutes left after posting minutes 4 and 3; redelivered 2 minutes later, it resumes with 60000 ms and a resume notice |
| `Scenarios.OverdueAfterReboot` | app/src/main/java/com/timer/services/TimerService.kt:159-161 | Start(1) killed at once and rebooted 5 minutes later rings 240000 ms overdue and says "4 минут назад" |
| `Scenarios.StoppedStaysStopped` | app/src/main/java/com/timer/services/TimerService.kt:164-166 | Start(2), Stop, kill and reboot: nothing resumes, nothing rings, the file is empty |

## Left out

- Concurrency is not modelled. The service runs its tick loop and its
  collector as coroutines and sends commands from the main thread. The model
  takes each step in one piece, in order. Two loops at once (a second
  `setTimer` without a cancel) and a save that comes late or is dropped do
  not occur in the model. `delay(1000)` is the step from one tick to the next.
- `TimerServiceModel.TimerService.EndTimerForegroundService` does not cancel
  the jobs, in the model as in the code. Cancellation is the `ticking` flag,
  and a cancelled loop simply gets no more `Tick` calls.
- The Android plumbing is not modelled: `startForeground`, `stopForeground`,
  `stopSelf`, the return value `START_REDELIVER_INTENT`, `onBind`, and intent
  construction. The model keeps only the decision each command makes.
  `onTaskRemoved` and `onDestroy` appear only through
  `OnBeforeActiveServiceStopped`, which they call.
- Notifications and the ringtone are not modelled. That covers
  `TimerNotificationHelper.kt`, notification channels and builders,
  `Ringtone` play and stop, and the stop action of `TimerAlarmService`. The
  signals record which notification or alarm was asked for, with its data.
- `BootReceiver.kt` is not modelled. It maps boot completion to the
  `AfterReboot` command.
- The Compose layout is not modelled, and neither are `CustomEditText.kt`,
  focus handling or the notification-permission dialog.
- The clock is read once per step. The code reads `System.currentTimeMillis()`
  separately for the saved time, the resume computation and the resume
  notice. The model uses one `now` for all of them.
- Kotlin `Long` overflow is not modelled. Times are unbounded integers, so
  arithmetic near 2^63 is left out. The one `Int` wrap-around that matters,
  `minutes * 60`, is modelled.
- `Kotlin.ToIntOrNull` and `MainActivity.OnEntered` accept only the ASCII
  digits 0 to 9. Kotlin's `isDigit` and `toIntOrNull` also accept other
  Unicode decimal digits.
- `MainActivity.Pad2` and `Kotlin.LongToString` use ASCII digits. The
  locale-dependent digits of `String.format` are left out.
- `TimerAlarm.PartsOf`: its own contract says only that the list is non-empty.
  The content is stated by `TimerAlarm.PartsAmounts`, `TimerAlarm.PartsOrdered`
  and `TimerAlarm.PartsPresence`, which keeps each proof small.
- The model keeps one service instance per process and one preference file
  shared by every process.
