/** The durable store of the timer: the shared-preferences file "timer_prefs"
    with three keys, wall-clock time of the last save, remaining time at the
    last save and the explicit-stop flag. A missing key reads as its default. */
module TimerPrefs {

  /** A stored preference: `putLong` or `putBoolean`. */
  datatype PrefValue = LongValue(longValue: int) | BoolValue(boolValue: bool)

  /** The contents of the preferences file, key to value. */
  type Prefs = map<string, PrefValue>

  const KeySystemTime: string := "system_time"
  const KeyRemainingTime: string := "remaining_time"
  const KeyTimerStoppedFlag: string := "timer_stopped_flag"

  const TimerKeys: set<string> := {KeySystemTime, KeyRemainingTime, KeyTimerStoppedFlag}

  /** Only the helper writes the file: its keys are the three timer keys,
      each holding the kind of value the helper puts there. */
  predicate WellTyped(p: Prefs) {
    && p.Keys <= TimerKeys
    && (KeySystemTime in p ==> p[KeySystemTime].LongValue?)
    && (KeyRemainingTime in p ==> p[KeyRemainingTime].LongValue?)
    && (KeyTimerStoppedFlag in p ==> p[KeyTimerStoppedFlag].BoolValue?)
  }

  /** `getLong(key, default)` */
  function GetLong(p: Prefs, key: string, default: int): (v: int)
    requires key in p ==> p[key].LongValue?
    ensures key !in p ==> v == default
    ensures key in p ==> p[key] == LongValue(v)
  {
    if key in p then p[key].longValue else default
  }

  /** `getBoolean(key, default)` */
  function GetBoolean(p: Prefs, key: string, default: bool): (v: bool)
    requires key in p ==> p[key].BoolValue?
    ensures key !in p ==> v == default
    ensures key in p ==> p[key] == BoolValue(v)
  {
    if key in p then p[key].boolValue else default
  }

  /** What `restoreSystemTimerTime` reads from `p`. */
  function StoredSystemTime(p: Prefs): int
    requires WellTyped(p)
  {
    GetLong(p, KeySystemTime, 0)
  }

  /** What `restoreRemainingTimerTime` reads from `p`. */
  function StoredRemainingTime(p: Prefs): int
    requires WellTyped(p)
  {
    GetLong(p, KeyRemainingTime, 0)
  }

  /** What `restoreTimerStoppedFlag` reads from `p`. */
  function StoredStoppedFlag(p: Prefs): bool
    requires WellTyped(p)
  {
    GetBoolean(p, KeyTimerStoppedFlag, false)
  }

  /** The file after `saveSystemTimerTime` then `saveRemainingTimerTime(remaining)`
      with the clock reading `now`. */
  function SaveSnapshot(p: Prefs, now: int, remaining: int): (p': Prefs)
    requires WellTyped(p)
    ensures WellTyped(p')
    ensures StoredSystemTime(p') == now && StoredRemainingTime(p') == remaining
    ensures KeyTimerStoppedFlag in p' <==> KeyTimerStoppedFlag in p
    ensures StoredStoppedFlag(p') == StoredStoppedFlag(p)
  {
    p[KeySystemTime := LongValue(now)][KeyRemainingTime := LongValue(remaining)]
  }

  /** The file after removing all three keys. */
  function Cleared(p: Prefs): (p': Prefs)
    requires WellTyped(p)
    ensures WellTyped(p')
    ensures p' == map[]
  {
    p - TimerKeys
  }

  /** The helper object: every call opens the same file, so the object holds
      the file's contents. */
  class TimerSharedPrefHelper {
    var prefs: Prefs

    ghost predicate Valid()
      reads this
    {
      WellTyped(prefs)
    }

    /** A file never written to. */
    constructor ()
      ensures Valid() && prefs == map[]
    {
      prefs := map[];
    }

    /** Stores the clock reading `now` of the moment of the save. */
    method SaveSystemTimerTime(now: int)
      requires Valid()
      modifies this
      ensures Valid()
      ensures prefs == old(prefs)[KeySystemTime := LongValue(now)]
    {
      prefs := prefs[KeySystemTime := LongValue(now)];
    }

    function RestoreSystemTimerTime(): (t: int)
      requires Valid()
      reads this
      ensures KeySystemTime in prefs ==> prefs[KeySystemTime] == LongValue(t)
      ensures KeySystemTime !in prefs ==> t == 0
    {
      StoredSystemTime(prefs)
    }

    method RemoveSystemTimerTime()
      requires Valid()
      modifies this
      ensures Valid()
      ensures prefs == old(prefs) - {KeySystemTime}
    {
      prefs := prefs - {KeySystemTime};
    }

    method SaveRemainingTimerTime(time: int)
      requires Valid()
      modifies this
      ensures Valid()
      ensures prefs == old(prefs)[KeyRemainingTime := LongValue(time)]
    {
      prefs := prefs[KeyRemainingTime := LongValue(time)];
    }

    function RestoreRemainingTimerTime(): (t: int)
      requires Valid()
      reads this
      ensures KeyRemainingTime in prefs ==> prefs[KeyRemainingTime] == LongValue(t)
      ensures KeyRemainingTime !in prefs ==> t == 0
    {
      StoredRemainingTime(prefs)
    }

    method RemoveRemainingTimerTime()
      requires Valid()
      modifies this
      ensures Valid()
      ensures prefs == old(prefs) - {KeyRemainingTime}
    {
      prefs := prefs - {KeyRemainingTime};
    }

    method SaveTimerStoppedFlag(flag: bool)
      requires Valid()
      modifies this
      ensures Valid()
      ensures prefs == old(prefs)[KeyTimerStoppedFlag := BoolValue(flag)]
    {
      prefs := prefs[KeyTimerStoppedFlag := BoolValue(flag)];
    }

    function RestoreTimerStoppedFlag(): (f: bool)
      requires Valid()
      reads this
      ensures KeyTimerStoppedFlag in prefs ==> prefs[KeyTimerStoppedFlag] == BoolValue(f)
      ensures KeyTimerStoppedFlag !in prefs ==> !f
    {
      StoredStoppedFlag(prefs)
    }

    method RemoveTimerStoppedFlag()
      requires Valid()
      modifies this
      ensures Valid()
      ensures prefs == old(prefs) - {KeyTimerStoppedFlag}
    {
      prefs := prefs - {KeyTimerStoppedFlag};
    }
  }

  // Properties of the store, stated on the file's contents.

  /** Restoring after a save returns what was saved, for both long keys and the flag. */
  lemma SaveRestoreRoundTrip(p: Prefs, now: int, time: int, flag: bool)
    requires WellTyped(p)
    ensures StoredSystemTime(p[KeySystemTime := LongValue(now)]) == now
    ensures StoredRemainingTime(p[KeyRemainingTime := LongValue(time)]) == time
    ensures StoredStoppedFlag(p[KeyTimerStoppedFlag := BoolValue(flag)]) == flag
  {
  }

  /** A key never written, or removed, restores to its default. */
  lemma RemovedKeysRestoreDefaults(p: Prefs)
    requires WellTyped(p)
    ensures StoredSystemTime(p - {KeySystemTime}) == 0
    ensures StoredRemainingTime(p - {KeyRemainingTime}) == 0
    ensures !StoredStoppedFlag(p - {KeyTimerStoppedFlag})
    ensures StoredSystemTime(map[]) == 0 && StoredRemainingTime(map[]) == 0 && !StoredStoppedFlag(map[])
  {
  }

  /** The three key names differ, so saving or removing one key leaves the
      other two readings unchanged. */
  lemma KeysIndependent(p: Prefs, now: int, time: int, flag: bool)
    requires WellTyped(p)
    ensures var q := p[KeySystemTime := LongValue(now)];
      StoredRemainingTime(q) == StoredRemainingTime(p) && StoredStoppedFlag(q) == StoredStoppedFlag(p)
    ensures var q := p[KeyRemainingTime := LongValue(time)];
      StoredSystemTime(q) == StoredSystemTime(p) && StoredStoppedFlag(q) == StoredStoppedFlag(p)
    ensures var q := p[KeyTimerStoppedFlag := BoolValue(flag)];
      StoredSystemTime(q) == StoredSystemTime(p) && StoredRemainingTime(q) == StoredRemainingTime(p)
    ensures var q := p - {KeySystemTime};
      StoredRemainingTime(q) == StoredRemainingTime(p) && StoredStoppedFlag(q) == StoredStoppedFlag(p)
    ensures var q := p - {KeyRemainingTime};
      StoredSystemTime(q) == StoredSystemTime(p) && StoredStoppedFlag(q) == StoredStoppedFlag(p)
    ensures var q := p - {KeyTimerStoppedFlag};
      StoredSystemTime(q) == StoredSystemTime(p) && StoredRemainingTime(q) == StoredRemainingTime(p)
  {
  }

  /** A second save to the same key overwrites the first. */
  lemma LastWriteWins(p: Prefs, t1: int, t2: int, f1: bool, f2: bool)
    requires WellTyped(p)
    ensures p[KeySystemTime := LongValue(t1)][KeySystemTime := LongValue(t2)] == p[KeySystemTime := LongValue(t2)]
    ensures p[KeyRemainingTime := LongValue(t1)][KeyRemainingTime := LongValue(t2)] == p[KeyRemainingTime := LongValue(t2)]
    ensures p[KeyTimerStoppedFlag := BoolValue(f1)][KeyTimerStoppedFlag := BoolValue(f2)] == p[KeyTimerStoppedFlag := BoolValue(f2)]
  {
  }

  /** Removing the three keys in the order `endTimerForegroundService` uses
      empties the file, and removing them again changes nothing. */
  lemma RemoveAllIdempotent(p: Prefs)
    requires WellTyped(p)
    ensures p - {KeyRemainingTime} - {KeySystemTime} - {KeyTimerStoppedFlag} == map[]
    ensures Cleared(Cleared(p)) == Cleared(p)
  {
    var q := p - {KeyRemainingTime} - {KeySystemTime} - {KeyTimerStoppedFlag};
    assert q.Keys == {};
  }
}
