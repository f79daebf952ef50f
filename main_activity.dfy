/** The decisions of the timer screen: how the remaining time is shown
    (`formatTime`), which typed text the minutes field keeps (`onEntered`),
    and which command each of the Start, Stop and Reset buttons sends. */
module MainActivity {
  import opened Kotlin
  import opened TimerServiceModel

  const MaxMinutesLength: nat := 2

  /** `"%02d".format(n)`: at least two characters, zero-padded after the sign. */
  function Pad2(n: int): (s: string)
    ensures n >= 0 ==> |s| >= 2 && AllDigits(s) && DigitsValue(s) == n
    ensures 0 <= n < 100 ==> |s| == 2
    ensures n >= 0 && |s| > 2 ==> s[0] != '0'
  {
    if 0 <= n < 10 then "0" + LongToString(n) else LongToString(n)
  }

  /** The minutes and the seconds within the minute that `formatTime` shows. */
  function ShownMinutes(millis: int): int {
    Quot(millis, 60000)
  }

  function ShownSeconds(millis: int): int {
    Quot(Rem(millis, 60000), 1000)
  }

  /** `formatTime(millis)`: `"%02d:%02d".format(minutes, seconds)`. For a
      non-negative time the last three characters are ':' and two digits of
      seconds, and everything before them is the whole minutes. */
  function FormatTime(millis: int): (text: string)
    ensures millis >= 0 ==>
      var k := |text| - 3;
      && k >= 2 && text[k] == ':'
      && AllDigits(text[..k]) && DigitsValue(text[..k]) == millis / 60000
      && AllDigits(text[k + 1..]) && DigitsValue(text[k + 1..]) == (millis % 60000) / 1000
      && (k > 2 ==> text[0] != '0')
  {
    var minutes, seconds := Pad2(ShownMinutes(millis)), Pad2(ShownSeconds(millis));
    var text := minutes + ":" + seconds;
    if millis >= 0 then
      FormatTimeParts(millis);
      assert text[..|text| - 3] == minutes && text[|text| - 2..] == seconds;
      text
    else text
  }

  /** For a non-negative time the seconds shown are 0 to 59, the minutes are the
      whole minutes, and together they are the time to the second below it. */
  lemma FormatTimeParts(millis: int)
    requires millis >= 0
    ensures 0 <= ShownSeconds(millis) < 60
    ensures ShownMinutes(millis) == millis / 60000
    ensures ShownMinutes(millis) * 60000 + ShownSeconds(millis) * 1000 <= millis
    ensures millis < ShownMinutes(millis) * 60000 + ShownSeconds(millis) * 1000 + 1000
  {
    var m, r := millis / 60000, millis % 60000;
    assert millis == 60000 * m + r;
    assert r == 1000 * (r / 1000) + r % 1000;
  }

  /** Below 100 minutes the text is exactly `mm:ss`, and its two digit pairs
      read back as the minutes and the seconds. */
  lemma FormatTimeShape(millis: int)
    requires 0 <= millis < 100 * 60000
    ensures var s := FormatTime(millis);
      && |s| == 5 && s[2] == ':'
      && AllDigits(s[..2]) && AllDigits(s[3..])
      && DigitsValue(s[..2]) == millis / 60000
      && DigitsValue(s[3..]) == (millis % 60000) / 1000
  {
    FormatTimeParts(millis);
  }

  /** A run ends with up to a second below zero left; the screen shows that
      as `00:00`, because both truncating divisions give 0. */
  lemma FormatTimeAtEndOfRun(millis: int)
    requires -1000 < millis <= 0
    ensures FormatTime(millis) == "00:00"
  {
    assert ShownMinutes(millis) == 0 && ShownSeconds(millis) == 0;
    assert LongToString(0) == "0";
  }

  /** The minutes field holds at most two decimal digits. */
  predicate AcceptableInput(s: string) {
    |s| <= MaxMinutesLength && AllDigits(s)
  }

  /** `onEntered`: keep the new text only if it is acceptable. */
  function OnEntered(timerValue: string, entered: string): (next: string)
    ensures AcceptableInput(entered) ==> next == entered
    ensures !AcceptableInput(entered) ==> next == timerValue
    ensures AcceptableInput(timerValue) ==> AcceptableInput(next)
  {
    if |entered| <= MaxMinutesLength && (forall i :: 0 <= i < |entered| ==> IsDigit(entered[i])) then entered
    else timerValue
  }

  /** Text the field keeps, when not empty, parses to a number from 0 to 99. */
  lemma AcceptedInputParses(s: string)
    requires AcceptableInput(s) && s != []
    ensures ToIntOrNull(s).Some?
    ensures 0 <= ToIntOrNull(s).value <= 99
  {
    assert Pow10(2) == 100;
    Pow10Monotone(|s|, 2);
  }

  /** The saveable screen state: the typed minutes and whether the timer is
      shown as running. */
  datatype UiState = UiState(timerValue: string, isTimerActive: bool)

  /** The `LaunchedEffect` on a new remaining time. */
  function OnRemainingChanged(ui: UiState, timeRemaining: int): (ui': UiState)
    ensures ui'.isTimerActive <==> timeRemaining > 0
    ensures ui'.timerValue == ui.timerValue
  {
    ui.(isTimerActive := timeRemaining > 0)
  }

  /** The Start button: resume a paused countdown, else start the typed minutes. */
  function StartClick(ui: UiState, timeRemaining: int): (cmd: Option<Command>)
    ensures ui.isTimerActive ==> cmd.None?
    ensures cmd == Some(Resume) <==> !ui.isTimerActive && timeRemaining > 0
    ensures cmd.Some? ==> cmd.value == Resume || cmd.value.Start?
    ensures cmd.Some? && cmd.value.Start? ==>
      cmd.value.minutesExtra == ToIntOrNull(ui.timerValue) && cmd.value.minutesExtra.Some? && cmd.value.minutesExtra.value > 0
  {
    if !ui.isTimerActive then
      if timeRemaining > 0 then Some(Resume)
      else
        match ToIntOrNull(ui.timerValue)
        case Some(v) => if v > 0 then Some(Start(Some(v))) else None
        case None => None
    else None
  }

  /** The Stop button: send Stop and show the timer as inactive. */
  function StopClick(ui: UiState): (r: (Option<Command>, UiState))
    ensures r.0.Some? <==> ui.isTimerActive
    ensures r.0.Some? ==> r.0.value == Stop
    ensures !r.1.isTimerActive && r.1.timerValue == ui.timerValue
  {
    if ui.isTimerActive then (Some(Stop), ui.(isTimerActive := false)) else (None, ui)
  }

  /** The Reset button. */
  function ResetClick(timeRemaining: int): (cmd: Option<Command>)
    ensures cmd.Some? <==> timeRemaining > 0
    ensures cmd.Some? ==> cmd.value == Reset
  {
    if timeRemaining > 0 then Some(Reset) else None
  }

  /** With a positive remaining time the Start button resumes, whatever was
      typed; otherwise it starts exactly when the text parses to a positive
      number, with that number of minutes. */
  lemma StartButtonChoice(ui: UiState, timeRemaining: int)
    requires !ui.isTimerActive
    ensures timeRemaining > 0 ==> StartClick(ui, timeRemaining) == Some(Resume)
    ensures timeRemaining <= 0 ==>
      (StartClick(ui, timeRemaining).Some? <==> ToIntOrNull(ui.timerValue).Some? && ToIntOrNull(ui.timerValue).value > 0)
    ensures timeRemaining <= 0 && StartClick(ui, timeRemaining).Some? ==>
      StartClick(ui, timeRemaining) == Some(Start(ToIntOrNull(ui.timerValue)))
  {
  }

  /** A Start the screen sends carries 1 to 99 minutes, so the service's
      `Int` product does not wrap and the countdown gets exactly that many
      minutes in milliseconds. */
  lemma ScreenStartIsExact(ui: UiState, timeRemaining: int)
    requires AcceptableInput(ui.timerValue)
    requires StartClick(ui, timeRemaining).Some? && StartClick(ui, timeRemaining).value.Start?
    ensures var extra := StartClick(ui, timeRemaining).value.minutesExtra;
      && extra.Some? && 1 <= extra.value <= 99
      && StartMillis(extra) == extra.value * 60 * 1000
  {
    AcceptedInputParses(ui.timerValue);
  }
}
