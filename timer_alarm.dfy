/** The text of the alarm that `TimerAlarmService` shows when a countdown has
    finished: either plain, or saying how long ago it finished, with the
    overdue time split into years, days, hours, minutes and seconds. */
module TimerAlarm {
  import opened Kotlin
  import opened Arithmetic
  import opened Countdown

  const SecondMillis: int := 1000
  const HourMillis: int := 60 * 60 * 1000
  const DayMillis: int := 24 * 60 * 60 * 1000

  /** `getLongExtra(INTENT_EXTRA_KEY_TIME_AGO_FINISHED, 0L)`: a missing extra reads as 0. */
  function ReadTimeAgoFinished(extra: Option<int>): (t: int)
    ensures extra.None? ==> t == 0
    ensures extra.Some? ==> t == extra.value
  {
    extra.GetOr(0)
  }

  const PlainMessage: string := "Таймер завершился!"

  /** The notification text of `createTimerFinishedAlarmNotification`: it
      mentions how long ago the timer finished exactly when that time is not 0,
      and then it carries the whole `formatDuration` text of that time. */
  function AlarmMessage(timeAgoFinished: int): (message: string)
    ensures message == PlainMessage <==> timeAgoFinished == 0
    ensures timeAgoFinished != 0 ==>
      message == "Таймер завершился: " + FormatDuration(timeAgoFinished) + " назад!"
  {
    if timeAgoFinished != 0 then
      var m := "Таймер завершился: " + FormatDuration(timeAgoFinished) + " назад!";
      assert m[17] == ':' && PlainMessage[17] == '!';
      m
    else PlainMessage
  }

  datatype DurationUnit = Year | Day | Hour | Minute | Second

  /** The five numbers `formatDuration` computes, each through `TimeUnit`
      conversions (truncating) and `Long` remainders. */
  datatype Components = Components(years: int, days: int, hours: int, minutes: int, seconds: int)

  function DurationComponents(millis: int): (c: Components)
    ensures millis >= 0 ==>
      && 0 <= c.seconds < 60 && 0 <= c.minutes < 60 && 0 <= c.hours < 24
      && 0 <= c.days < 365 && c.years == (millis / DayMillis) / 365 && c.years >= 0
    ensures millis < 0 ==>
      c.years <= 0 && c.days <= 0 && c.hours <= 0 && c.minutes <= 0 && c.seconds <= 0
  {
    var days, hours := Quot(millis, DayMillis), Quot(millis, HourMillis);
    var minutes, seconds := Quot(millis, MinuteMillis), Quot(millis, SecondMillis);
    assert millis >= 0 ==> days >= 0 && hours >= 0 && minutes >= 0 && seconds >= 0;
    assert millis < 0 ==> days <= 0 && hours <= 0 && minutes <= 0 && seconds <= 0;
    Components(Quot(days, 365), Rem(days, 365), Rem(hours, 24), Rem(minutes, 60), Rem(seconds, 60))
  }

  function Component(c: Components, u: DurationUnit): int {
    match u
    case Year => c.years
    case Day => c.days
    case Hour => c.hours
    case Minute => c.minutes
    case Second => c.seconds
  }

  /** The position of a unit in the text: years come first, seconds last. */
  function Rank(u: DurationUnit): nat {
    match u
    case Year => 0
    case Day => 1
    case Hour => 2
    case Minute => 3
    case Second => 4
  }

  /** One element of the `parts` list: an amount and its unit. */
  datatype Part = Part(amount: int, unit: DurationUnit)

  /** The part for `u` when its amount is positive, no part otherwise. */
  function PartIfPositive(c: Components, u: DurationUnit): seq<Part> {
    if Component(c, u) > 0 then [Part(Component(c, u), u)] else []
  }

  /** The `parts` list `formatDuration` builds from the components `c`: the
      positive amounts from years down to minutes, then the seconds when they
      are positive or when nothing came before. */
  function PartsOf(c: Components): (parts: seq<Part>)
    ensures parts != []
  {
    var larger := PartIfPositive(c, Year) + PartIfPositive(c, Day) + PartIfPositive(c, Hour) + PartIfPositive(c, Minute);
    larger + (if c.seconds > 0 || larger == [] then [Part(c.seconds, Second)] else [])
  }

  /** Every part carries its own unit's component. */
  lemma PartsAmounts(c: Components)
    ensures var parts := PartsOf(c);
      forall i :: 0 <= i < |parts| ==> parts[i].amount == Component(c, parts[i].unit)
  {
  }

  /** The units appear in the order years, days, hours, minutes, seconds. */
  lemma PartsOrdered(c: Components)
    ensures var parts := PartsOf(c);
      forall i, j :: 0 <= i < j < |parts| ==> Rank(parts[i].unit) < Rank(parts[j].unit)
  {
  }

  /** A unit other than seconds appears exactly when its amount is positive;
      seconds appear when positive or when no other unit did. */
  lemma PartsPresence(c: Components)
    ensures var parts := PartsOf(c);
      forall u :: u != Second ==> (Part(Component(c, u), u) in parts <==> Component(c, u) > 0)
    ensures var parts := PartsOf(c);
      Part(c.seconds, Second) in parts <==>
        c.seconds > 0 || (c.years <= 0 && c.days <= 0 && c.hours <= 0 && c.minutes <= 0)
  {
  }

  function DurationParts(millis: int): seq<Part> {
    PartsOf(DurationComponents(millis))
  }

  function SingularWord(u: DurationUnit): string {
    match u
    case Year => "год"
    case Day => "день"
    case Hour => "час"
    case Minute => "минута"
    case Second => "секунда"
  }

  function PluralWord(u: DurationUnit): string {
    match u
    case Year => "года"
    case Day => "дней"
    case Hour => "часов"
    case Minute => "минут"
    case Second => "секунд"
  }

  /** The word after an amount: the singular form exactly for the amount 1. */
  function UnitWord(u: DurationUnit, amount: int): string {
    if amount == 1 then SingularWord(u) else PluralWord(u)
  }

  function RenderPart(p: Part): string {
    LongToString(p.amount) + " " + UnitWord(p.unit, p.amount)
  }

  /** `joinToString(" ")` */
  function JoinWithSpaces(xs: seq<string>): string {
    if xs == [] then ""
    else if |xs| == 1 then xs[0]
    else xs[0] + " " + JoinWithSpaces(xs[1..])
  }

  function RenderParts(parts: seq<Part>): (rs: seq<string>)
    ensures |rs| == |parts|
    ensures forall i :: 0 <= i < |parts| ==> rs[i] == RenderPart(parts[i])
  {
    if parts == [] then [] else [RenderPart(parts[0])] + RenderParts(parts[1..])
  }

  /** `formatDuration(millis)`: never empty, and it opens with the first
      part, the largest unit present. */
  function FormatDuration(millis: int): (text: string)
    ensures text != []
    ensures var first := RenderPart(DurationParts(millis)[0]);
      |text| >= |first| && text[..|first|] == first
  {
    var rs := RenderParts(DurationParts(millis));
    JoinStartsWithFirst(rs);
    JoinWithSpaces(rs)
  }

  /** The components put back together give the duration, to the second
      (the milliseconds below a whole second are dropped). */
  lemma Reconstruction(millis: int)
    requires millis >= 0
    ensures var c := DurationComponents(millis);
      var whole := c.years * 365 * DayMillis + c.days * DayMillis + c.hours * HourMillis
                 + c.minutes * MinuteMillis + c.seconds * SecondMillis;
      whole <= millis < whole + SecondMillis
  {
    var c := DurationComponents(millis);
    var s, m, h, d := millis / 1000, millis / 60000, millis / 3600000, millis / 86400000;
    DivDivMod(millis, 1000, 60);
    DivDivMod(millis, 60000, 60);
    DivDivMod(millis, 3600000, 24);
    assert m == s / 60 && h == m / 60 && d == h / 24;
    assert s == 60 * m + c.seconds;
    assert m == 60 * h + c.minutes;
    assert h == 24 * d + c.hours;
    assert d == 365 * c.years + c.days;
    assert millis == 1000 * s + millis % 1000;
  }

  /** `joinToString(" ")` keeps the first element at the front. */
  lemma {:induction false} JoinStartsWithFirst(xs: seq<string>)
    requires xs != []
    ensures |JoinWithSpaces(xs)| >= |xs[0]|
    ensures JoinWithSpaces(xs)[..|xs[0]|] == xs[0]
  {
    if |xs| > 1 {
      var j := JoinWithSpaces(xs);
      assert j == xs[0] + (" " + JoinWithSpaces(xs[1..]));
    }
  }

  /** The words of the rendered parts, in order: each amount in decimal,
      then its unit word. */
  function Words(parts: seq<Part>): (ws: seq<string>)
    ensures |ws| == 2 * |parts|
  {
    if parts == [] then []
    else [LongToString(parts[0].amount), UnitWord(parts[0].unit, parts[0].amount)] + Words(parts[1..])
  }

  /** The two words of part `i` sit at positions `2 * i` and `2 * i + 1`. */
  lemma {:induction false} WordsAt(parts: seq<Part>, i: nat)
    requires i < |parts|
    ensures Words(parts)[2 * i] == LongToString(parts[i].amount)
    ensures Words(parts)[2 * i + 1] == UnitWord(parts[i].unit, parts[i].amount)
  {
    var ws, rest := Words(parts), Words(parts[1..]);
    assert ws == [LongToString(parts[0].amount), UnitWord(parts[0].unit, parts[0].amount)] + rest;
    if i > 0 {
      var j := i - 1;
      WordsAt(parts[1..], j);
      assert parts[1..][j] == parts[i];
      assert ws[2 * j + 2] == rest[2 * j] && ws[2 * j + 3] == rest[2 * j + 1];
      assert 2 * i == 2 * j + 2;
    }
  }

  /** A text cut at every single space, as `split(" ")` cuts it. */
  function SplitAtSpaces(s: string): (pieces: seq<string>)
    ensures |pieces| >= 1
  {
    if s == [] then [""]
    else
      var rest := SplitAtSpaces(s[1..]);
      if s[0] == ' ' then [""] + rest else [[s[0]] + rest[0]] + rest[1..]
  }

  predicate NoSpace(w: string) {
    ' ' !in w
  }

  /** Cutting a text that opens with a word without spaces. */
  lemma {:induction false} SplitWordThen(a: string, t: string)
    requires NoSpace(a)
    ensures SplitAtSpaces(a + t) == [a + SplitAtSpaces(t)[0]] + SplitAtSpaces(t)[1..]
    decreases |a|
  {
    if a == [] {
      assert a + t == t;
      assert a + SplitAtSpaces(t)[0] == SplitAtSpaces(t)[0];
      assert SplitAtSpaces(t) == [SplitAtSpaces(t)[0]] + SplitAtSpaces(t)[1..];
    } else {
      assert (a + t)[1..] == a[1..] + t;
      SplitWordThen(a[1..], t);
      assert [a[0]] + (a[1..] + SplitAtSpaces(t)[0]) == a + SplitAtSpaces(t)[0];
    }
  }

  /** `joinToString(" ")` is undone by cutting at spaces when no element
      contains a space. */
  lemma {:induction false} SplitJoin(ws: seq<string>)
    requires ws != [] && forall i :: 0 <= i < |ws| ==> NoSpace(ws[i])
    ensures SplitAtSpaces(JoinWithSpaces(ws)) == ws
    decreases |ws|
  {
    if |ws| == 1 {
      SplitWordThen(ws[0], []);
      assert ws[0] + [] == ws[0];
    } else {
      var rest := JoinWithSpaces(ws[1..]);
      SplitJoin(ws[1..]);
      assert (" " + rest)[1..] == rest;
      assert SplitAtSpaces(" " + rest) == [""] + ws[1..];
      SplitWordThen(ws[0], " " + rest);
      assert JoinWithSpaces(ws) == ws[0] + (" " + rest);
      assert ws[0] + "" == ws[0];
      assert ws == [ws[0]] + ws[1..];
    }
  }

  /** `joinToString(" ")` of a list with at least two elements. */
  lemma JoinCons(x: string, rest: seq<string>)
    requires rest != []
    ensures JoinWithSpaces([x] + rest) == x + " " + JoinWithSpaces(rest)
  {
    assert ([x] + rest)[1..] == rest;
  }

  /** Joining the rendered parts is joining their words. */
  lemma {:induction false} JoinRenderedParts(parts: seq<Part>)
    requires parts != []
    ensures JoinWithSpaces(RenderParts(parts)) == JoinWithSpaces(Words(parts))
    decreases |parts|
  {
    var num, word := LongToString(parts[0].amount), UnitWord(parts[0].unit, parts[0].amount);
    var tail := Words(parts[1..]);
    assert Words(parts) == [num] + ([word] + tail);
    JoinCons(num, [word] + tail);
    if |parts| == 1 {
      assert [word] + tail == [word];
    } else {
      JoinRenderedParts(parts[1..]);
      JoinCons(word, tail);
      assert RenderParts(parts) == [RenderPart(parts[0])] + RenderParts(parts[1..]);
      JoinCons(RenderPart(parts[0]), RenderParts(parts[1..]));
    }
  }

  /** A decimal rendering has no space. */
  lemma NumberHasNoSpace(n: int)
    ensures NoSpace(LongToString(n))
  {
    var s := LongToString(n);
    if n < 0 {
      assert s == [s[0]] + s[1..];
      assert forall k :: 1 <= k < |s| ==> s[k] == s[1..][k - 1];
    }
  }

  /** No unit word has a space. */
  lemma UnitWordHasNoSpace(u: DurationUnit, amount: int)
    ensures NoSpace(UnitWord(u, amount))
  {
    match u {
      case Year =>
      case Day =>
      case Hour =>
      case Minute =>
      case Second =>
    }
  }

  lemma WordsHaveNoSpace(parts: seq<Part>)
    ensures forall i :: 0 <= i < |Words(parts)| ==> NoSpace(Words(parts)[i])
  {
    var ws := Words(parts);
    forall i | 0 <= i < |ws|
      ensures NoSpace(ws[i])
    {
      var k := i / 2;
      WordsAt(parts, k);
      NumberHasNoSpace(parts[k].amount);
      UnitWordHasNoSpace(parts[k].unit, parts[k].amount);
      assert i == 2 * k || i == 2 * k + 1;
    }
  }

  /** The duration text read back word by word: for every part, in order,
      its amount in decimal and then its unit word. No part is dropped. */
  lemma FormatDurationWords(millis: int)
    ensures SplitAtSpaces(FormatDuration(millis)) == Words(DurationParts(millis))
  {
    var parts := DurationParts(millis);
    JoinRenderedParts(parts);
    WordsHaveNoSpace(parts);
    SplitJoin(Words(parts));
  }

  /** Each unit's word is the singular form exactly when its amount is 1. */
  lemma SingularExactlyForOne(u: DurationUnit, amount: int)
    ensures UnitWord(u, amount) == SingularWord(u) <==> amount == 1
  {
    assert SingularWord(u) != PluralWord(u);
  }

  /** Four minutes overdue reads "4 минут" (the plural form, as for every
      amount other than 1). */
  lemma FourMinutesOverdue()
    ensures AlarmMessage(240000) == "Таймер завершился: 4 минут назад!"
  {
    assert DurationComponents(240000) == Components(0, 0, 0, 4, 0);
    assert DurationParts(240000) == [Part(4, Minute)];
    assert LongToString(4) == "4";
  }
}
