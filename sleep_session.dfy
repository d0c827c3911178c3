/** A blocking session: what was asked for, when it started, when it ends. */
module SleepSessions {
  import opened Wrappers
  import opened SwiftInt
  import opened StrictnessModes
  import opened ScheduleModes

  /** A UUID; the caller supplies a fresh one. */
  datatype Uuid = Uuid(bits: nat)

  /** Times are whole seconds on one clock; `endsAt` is when blocking stops. */
  datatype SleepSession = SleepSession(
    id: Uuid,
    mode: ScheduleMode,
    strictness: StrictnessMode,
    startedAt: int,
    endsAt: int,
    isActive: bool)

  /** `SleepSession.manual(durationMinutes:strictness:)` at the instant `now`, with identifier `id`. */
  function ManualSession(id: Uuid, durationMinutes: int, strictness: StrictnessMode, now: int): (s: SleepSession)
    ensures s.endsAt - s.startedAt == durationMinutes * 60
    ensures s.startedAt == now && s.id == id && s.isActive
    ensures s.mode == ScheduleMode.Manual(durationMinutes) && s.strictness == strictness
  {
    SleepSession(id, ScheduleMode.Manual(durationMinutes), strictness, now, now + durationMinutes * 60, true)
  }

  /** `isExpired` at the instant `now`: the time since the start has reached the session's length. */
  function IsExpired(s: SleepSession, now: int): (expired: bool)
    ensures expired <==> now - s.startedAt >= TotalSeconds(s)
  {
    now >= s.endsAt
  }

  /** `remainingTime` at the instant `now`: never negative, zero exactly once expired. */
  function RemainingTime(s: SleepSession, now: int): (r: int)
    ensures r >= 0
    ensures r == 0 <==> IsExpired(s, now)
    ensures !IsExpired(s, now) ==> r == s.endsAt - now
  {
    if s.endsAt - now > 0 then s.endsAt - now else 0
  }

  /** A manual session of positive length is running when it is created, and has its whole length left. */
  lemma ManualSessionRunningAtStart(id: Uuid, durationMinutes: int, strictness: StrictnessMode, now: int)
    requires durationMinutes > 0
    ensures !IsExpired(ManualSession(id, durationMinutes, strictness, now), now)
    ensures RemainingTime(ManualSession(id, durationMinutes, strictness, now), now) == durationMinutes * 60
  {
  }

  /** Synthesised `Equatable`: equality is field by field. */
  lemma SessionEquality(a: SleepSession, b: SleepSession)
    ensures a == b <==>
      a.id == b.id && a.mode == b.mode && a.strictness == b.strictness &&
      a.startedAt == b.startedAt && a.endsAt == b.endsAt && a.isActive == b.isActive
  {
  }

  /** The session's length in whole seconds, `Int(endsAt.timeIntervalSince(startedAt))`. */
  function TotalSeconds(s: SleepSession): int {
    s.endsAt - s.startedAt
  }

  function DurationHours(s: SleepSession): int {
    Quot(TotalSeconds(s), 3600)
  }

  function DurationMinutes(s: SleepSession): int {
    Quot(Rem(TotalSeconds(s), 3600), 60)
  }

  /** `durationFormatted`: "Hh Mm", "Hh" when there are no odd minutes, "Mm" under an hour; seconds are dropped. */
  function DurationFormatted(s: SleepSession): (t: string)
    ensures |t| >= 2 && (t[|t| - 1] == 'h' || t[|t| - 1] == 'm')
  {
    var hours := DurationHours(s);
    var minutes := DurationMinutes(s);
    if hours > 0 then
      if minutes > 0 then IntToString(hours) + ("h " + (IntToString(minutes) + "m"))
      else IntToString(hours) + "h"
    else IntToString(minutes) + "m"
  }

  /**
   * Reads back exactly the texts `durationFormatted` makes for a non-negative
   * length: "Hh Mm" (hours positive, minutes 1 to 59), "Hh" (hours positive)
   * or "Mm" (minutes below 60), each number without a leading zero.  Gives
   * the number of seconds shown, or None for any other text.
   */
  function ParseDuration(t: string): Option<int> {
    match ReadNumeral(t)
    case None => None
    case Some(a) => if NoLeadingZero(t[..a.width]) then ParseUnit(a.value, a.rest) else None
  }

  /** What may follow the first number: "h", "m", or "h " and a number of minutes. */
  function ParseUnit(n: nat, rest: string): Option<int> {
    if rest == "h" then (if n > 0 then Some(n * 3600) else None)
    else if rest == "m" then (if n < 60 then Some(n * 60) else None)
    else if |rest| >= 2 && rest[..2] == "h " && n > 0 then ParseMinutesAfterHours(n, rest[2..])
    else None
  }

  function ParseMinutesAfterHours(hours: nat, rest: string): Option<int> {
    match ReadNumeral(rest)
    case None => None
    case Some(b) =>
      if b.rest == "m" && 0 < b.value < 60 && NoLeadingZero(rest[..b.width]) then Some(hours * 3600 + b.value * 60)
      else None
  }

  /** Splitting a non-negative number of seconds into hours, minutes and leftover seconds. */
  lemma SplitSeconds(t: int, h: int, r: int, m: int)
    requires t >= 0 && h == t / 3600 && r == t % 3600 && m == r / 60
    ensures h >= 0 && 0 <= m < 60
    ensures h * 3600 + m * 60 == t - t % 60
  {
    assert t == 3600 * h + r;
    assert r == 60 * m + r % 60;
    assert t == 60 * (60 * h + m) + r % 60;
    assert t % 60 == r % 60;
  }

  /** For a non-negative length, the hours and minutes shown account for all of it but the leftover seconds. */
  lemma DurationParts(s: SleepSession)
    requires TotalSeconds(s) >= 0
    ensures DurationHours(s) >= 0 && 0 <= DurationMinutes(s) < 60
    ensures DurationHours(s) * 3600 + DurationMinutes(s) * 60 == TotalSeconds(s) - TotalSeconds(s) % 60
  {
    var t := TotalSeconds(s);
    assert DurationHours(s) == t / 3600;
    assert Rem(t, 3600) == t % 3600;
    assert DurationMinutes(s) == (t % 3600) / 60;
    SplitSeconds(t, t / 3600, t % 3600, (t % 3600) / 60);
  }

  /** "Hm" or "Mm" read field by field: one number and its unit letter. */
  lemma DurationOfOneField(t: string, total: int, n: nat, width: nat, unit: char)
    requires ReadNumeral(t) == Some(Numeral(n, width, [unit])) && NoLeadingZero(t[..width])
    requires (unit == 'h' && n > 0 && n * 3600 == total) || (unit == 'm' && n < 60 && n * 60 == total)
    ensures ParseDuration(t) == Some(total)
  {
  }

  /** "Hh Mm" read field by field: the hours, "h ", the minutes, "m". */
  lemma DurationOfTwoFields(t: string, total: int, hours: nat, hoursWidth: nat, minutes: nat, minutesWidth: nat,
                            tail: string)
    requires ReadNumeral(t) == Some(Numeral(hours, hoursWidth, tail)) && NoLeadingZero(t[..hoursWidth])
    requires |tail| >= 3 && tail[..2] == "h "
    requires ReadNumeral(tail[2..]) == Some(Numeral(minutes, minutesWidth, "m")) && NoLeadingZero(tail[2..][..minutesWidth])
    requires hours > 0 && 0 < minutes < 60 && hours * 3600 + minutes * 60 == total
    ensures ParseDuration(t) == Some(total)
  {
  }

  lemma DurationWithHoursAndMinutes(s: SleepSession, t: string, total: int)
    requires DurationHours(s) > 0 && 0 < DurationMinutes(s) < 60
    requires DurationHours(s) * 3600 + DurationMinutes(s) * 60 == total
    requires t == DurationFormatted(s)
    ensures ParseDuration(t) == Some(total)
  {
    var hours, minutes := DurationHours(s), DurationMinutes(s);
    var hs, ms := NatToString(hours), NatToString(minutes);
    var unitsTail := ms + "m";
    var tail := "h " + unitsTail;
    assert t == hs + tail;
    NatToStringValue(hours);
    NatToStringValue(minutes);
    ReadNumeralOf(hs, tail);
    assert tail[..2] == "h " && tail[2..] == unitsTail;
    ReadNumeralOf(ms, "m");
    DurationOfTwoFields(t, total, hours, |hs|, minutes, |ms|, tail);
  }

  lemma DurationWithOneUnit(s: SleepSession, t: string, total: int)
    requires DurationHours(s) >= 0 && 0 <= DurationMinutes(s) < 60
    requires !(DurationHours(s) > 0 && DurationMinutes(s) > 0)
    requires DurationHours(s) * 3600 + DurationMinutes(s) * 60 == total
    requires t == DurationFormatted(s)
    ensures ParseDuration(t) == Some(total)
  {
    var hours, minutes := DurationHours(s), DurationMinutes(s);
    var n: nat, unit := if hours > 0 then hours else minutes, if hours > 0 then 'h' else 'm';
    var ns := NatToString(n);
    assert t == ns + [unit];
    NatToStringValue(n);
    ReadNumeralOf(ns, [unit]);
    DurationOfOneField(t, total, n, |ns|, unit);
  }

  /** The duration label reads back as any `total` that its hours and minutes account for. */
  lemma DurationShownAs(s: SleepSession, total: int)
    requires DurationHours(s) >= 0 && 0 <= DurationMinutes(s) < 60
    requires DurationHours(s) * 3600 + DurationMinutes(s) * 60 == total
    ensures ParseDuration(DurationFormatted(s)) == Some(total)
  {
    var t := DurationFormatted(s);
    if DurationHours(s) > 0 && DurationMinutes(s) > 0 {
      DurationWithHoursAndMinutes(s, t, total);
    } else {
      DurationWithOneUnit(s, t, total);
    }
  }

  /** Reading `durationFormatted` back gives the session's length rounded down to whole minutes. */
  lemma DurationFormattedRoundTrip(s: SleepSession)
    requires TotalSeconds(s) >= 0
    ensures ParseDuration(DurationFormatted(s)) == Some(TotalSeconds(s) - TotalSeconds(s) % 60)
  {
    var total := TotalSeconds(s) - TotalSeconds(s) % 60;
    assert DurationHours(s) >= 0 && 0 <= DurationMinutes(s) < 60
        && DurationHours(s) * 3600 + DurationMinutes(s) * 60 == total by {
      DurationParts(s);
    }
    DurationShownAs(s, total);
  }

  /** The three layouts: a space exactly when both hours and minutes show, a trailing "h" exactly for whole hours. */
  lemma DurationFormattedLayout(s: SleepSession)
    requires TotalSeconds(s) >= 0
    ensures var t := DurationFormatted(s);
      && |t| >= 2
      && (' ' in t <==> DurationHours(s) > 0 && DurationMinutes(s) > 0)
      && (t[|t| - 1] == 'h' <==> DurationHours(s) > 0 && DurationMinutes(s) == 0)
      && (t[|t| - 1] == 'm' <==> !(DurationHours(s) > 0 && DurationMinutes(s) == 0))
  {
    DurationParts(s);
    var hours, minutes := DurationHours(s), DurationMinutes(s);
    var hs, ms := NatToString(hours), NatToString(minutes);
    var t := DurationFormatted(s);
    assert ' ' !in hs && ' ' !in ms by {
      assert !IsDigit(' ');
    }
    if hours > 0 && minutes > 0 {
      assert t == hs + ("h " + (ms + "m"));
      assert t[|hs| + 1] == ' ';
    } else if hours > 0 {
      assert t == hs + "h";
    } else {
      assert t == ms + "m";
    }
  }

  /** Whole minutes have no leftover seconds. */
  lemma WholeMinutes(total: int, minutes: nat)
    requires total == minutes * 60
    ensures total - total % 60 == minutes * 60
  {
    assert total == 60 * minutes + 0;
  }

  /** A session lasting whole minutes shows exactly that many minutes. */
  lemma WholeMinutesShown(s: SleepSession, minutes: nat)
    requires TotalSeconds(s) == minutes * 60
    ensures ParseDuration(DurationFormatted(s)) == Some(minutes * 60)
  {
    DurationParts(s);
    WholeMinutes(TotalSeconds(s), minutes);
    DurationShownAs(s, minutes * 60);
  }

  /** A manual session's label reads back as exactly the minutes that were chosen. */
  lemma ManualDurationShown(id: Uuid, durationMinutes: int, strictness: StrictnessMode, now: int)
    requires durationMinutes >= 0
    ensures ParseDuration(DurationFormatted(ManualSession(id, durationMinutes, strictness, now))) == Some(durationMinutes * 60)
  {
    WholeMinutesShown(ManualSession(id, durationMinutes, strictness, now), durationMinutes);
  }

  /** A length of `h` hours and `m < 60` minutes shows those as its fields. */
  lemma FieldsOfLength(s: SleepSession, h: nat, m: nat)
    requires m < 60 && TotalSeconds(s) == h * 3600 + m * 60
    ensures DurationHours(s) == h && DurationMinutes(s) == m
  {
  }

  /** The one text that reads back as a length: any text the reader maps to the session's length is its label. */
  lemma DurationReaderCanonical(t: string, s: SleepSession)
    requires ParseDuration(t) == Some(TotalSeconds(s))
    ensures t == DurationFormatted(s)
  {
    var a := ReadNumeral(t).value;
    CanonicalDigits(t[..a.width]);
    if a.rest == "h" || a.rest == "m" {
      OneUnitIsLabel(t, s, a);
    } else {
      TwoUnitsIsLabel(t, s, a);
    }
  }

  /** A text read as "Hh" or "Mm" is the label of a length of whole hours, or of minutes under an hour. */
  lemma OneUnitIsLabel(t: string, s: SleepSession, a: Numeral)
    requires ReadNumeral(t) == Some(a) && NatToString(a.value) == t[..a.width]
    requires a.rest == "h" || a.rest == "m"
    requires ParseUnit(a.value, a.rest) == Some(TotalSeconds(s))
    ensures t == DurationFormatted(s)
  {
    if a.rest == "h" {
      FieldsOfLength(s, a.value, 0);
    } else {
      FieldsOfLength(s, 0, a.value);
    }
  }

  /** A text read as "Hh Mm" is the label of a length with positive hours and odd minutes. */
  lemma TwoUnitsIsLabel(t: string, s: SleepSession, a: Numeral)
    requires ReadNumeral(t) == Some(a) && NatToString(a.value) == t[..a.width]
    requires a.rest != "h" && a.rest != "m"
    requires ParseUnit(a.value, a.rest) == Some(TotalSeconds(s))
    ensures t == DurationFormatted(s)
  {
    var r := a.rest[2..];
    var b := ReadNumeral(r).value;
    var ms := r[..b.width];
    CanonicalDigits(ms);
    assert r == ms + "m";
    assert a.rest == "h " + r;
    FieldsOfLength(s, a.value, b.value);
    LabelOfTwoFields(t, s, a.value, b.value, t[..a.width], ms);
  }

  lemma LabelOfTwoFields(t: string, s: SleepSession, hours: nat, minutes: nat, hs: string, ms: string)
    requires DurationHours(s) == hours > 0 && DurationMinutes(s) == minutes > 0
    requires hs == NatToString(hours) && ms == NatToString(minutes)
    requires t == hs + ("h " + (ms + "m"))
    ensures t == DurationFormatted(s)
  {
  }
}
