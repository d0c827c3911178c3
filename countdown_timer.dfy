/**
 * The arithmetic of the countdown ring: the remaining time, clamped at
 * zero, and its "H:MM:SS" / "MM:SS" label.  The ring's drawing and its
 * floating-point progress fraction are not part of this model.
 */
module Countdown {
  import opened Wrappers
  import opened SwiftInt

  /** `max(0, endsAt.timeIntervalSince(now))`, in whole seconds. */
  function Remaining(endsAt: int, now: int): (rem: nat)
    ensures rem >= endsAt - now
    ensures rem == 0 || rem == endsAt - now
    ensures rem == 0 <==> now >= endsAt
  {
    if endsAt - now > 0 then endsAt - now else 0
  }

  function Hours(total: nat): nat { total / 3600 }
  function Minutes(total: nat): nat { (total % 3600) / 60 }
  function Seconds(total: nat): nat { total % 60 }

  /** `formatTime` on a whole, non-negative number of seconds: five characters, more exactly when there are hours. */
  function FormatTime(total: nat): (t: string)
    ensures 5 <= |t| && (|t| == 5 <==> Hours(total) == 0)
  {
    var h, m, s := Hours(total), Minutes(total), Seconds(total);
    assert m < 60 && s < 60;
    if h > 0 then NatToString(h) + (":" + (Pad2(m) + (":" + Pad2(s))))
    else Pad2(m) + (":" + Pad2(s))
  }

  /** The three fields split `total` exactly, and minutes and seconds are clock digits. */
  lemma ClockFields(total: nat)
    ensures Minutes(total) < 60 && Seconds(total) < 60
    ensures Hours(total) * 3600 + Minutes(total) * 60 + Seconds(total) == total
  {
    var h, r := total / 3600, total % 3600;
    var m := r / 60;
    assert total == 3600 * h + r;
    assert r == 60 * m + r % 60;
    assert total == 60 * (60 * h + m) + r % 60;
    assert total % 60 == r % 60;
  }

  /**
   * Reads back exactly the texts `formatTime` makes: "H:MM:SS" with positive
   * hours written without a leading zero, or "MM:SS"; minutes and seconds are
   * two digits below 60.  Gives the number of seconds, or None for any other text.
   */
  function ParseClock(t: string): Option<nat> {
    match ReadNumeral(t)
    case None => None
    case Some(a) =>
      if a.rest != [] && a.rest[0] == ':' then ParseAfterFirstColon(a, NoLeadingZero(t[..a.width]), a.rest[1..])
      else None
  }

  /**
   * A two-digit field under 60 must follow the first colon; then the label ends,
   * or a second colon follows and the first field was hours (`plain`: written
   * without a leading zero).
   */
  function ParseAfterFirstColon(a: Numeral, plain: bool, r: string): Option<nat> {
    match ReadNumeral(r)
    case None => None
    case Some(b) =>
      if b.width != 2 || b.value >= 60 then None
      else if b.rest == [] then
        if a.width == 2 && a.value < 60 then Some(a.value * 60 + b.value) else None
      else if b.rest[0] == ':' && a.value > 0 && plain then ParseSecondsField(a.value, b.value, b.rest[1..])
      else None
  }

  function ParseSecondsField(hours: nat, minutes: nat, r: string): Option<nat> {
    match ReadNumeral(r)
    case None => None
    case Some(c) =>
      if c.width == 2 && c.value < 60 && c.rest == [] then Some(hours * 3600 + minutes * 60 + c.value) else None
  }

  lemma ReadPadded(n: nat, rest: string, t: string)
    requires n < 100
    requires rest == [] || !IsDigit(rest[0])
    requires t == Pad2(n) + rest
    ensures ReadNumeral(t) == Some(Numeral(n, 2, rest))
  {
    Pad2Value(n);
    ReadNumeralOf(Pad2(n), rest);
  }

  /** "MM:SS" read field by field: two two-digit fields under 60 around one colon. */
  lemma ClockOfTwoFields(t: string, total: nat, m: nat, s: nat, tail: string)
    requires m < 60 && s < 60 && m * 60 + s == total
    requires ReadNumeral(t) == Some(Numeral(m, 2, tail))
    requires tail != [] && tail[0] == ':'
    requires ReadNumeral(tail[1..]) == Some(Numeral(s, 2, []))
    ensures ParseClock(t) == Some(total)
  {
  }

  /** "H:MM:SS" read field by field: positive hours, then two two-digit fields under 60, colons between. */
  lemma ClockOfThreeFields(t: string, total: nat, h: nat, width: nat, m: nat, s: nat,
                           minutesTail: string, secondsTail: string)
    requires h > 0 && m < 60 && s < 60 && h * 3600 + m * 60 + s == total
    requires ReadNumeral(t) == Some(Numeral(h, width, minutesTail)) && NoLeadingZero(t[..width])
    requires minutesTail != [] && minutesTail[0] == ':'
    requires ReadNumeral(minutesTail[1..]) == Some(Numeral(m, 2, secondsTail))
    requires secondsTail != [] && secondsTail[0] == ':'
    requires ReadNumeral(secondsTail[1..]) == Some(Numeral(s, 2, []))
    ensures ParseClock(t) == Some(total)
  {
  }

  /** Reading the label back gives exactly the number of seconds it was made from. */
  lemma FormatTimeRoundTrip(total: nat)
    ensures ParseClock(FormatTime(total)) == Some(total)
  {
    var t := FormatTime(total);
    if Hours(total) > 0 {
      FormatTimeWithHours(total, t);
    } else {
      FormatTimeWithoutHours(total, t);
    }
  }

  lemma FormatTimeWithHours(total: nat, t: string)
    requires Hours(total) > 0 && t == FormatTime(total)
    ensures ParseClock(t) == Some(total)
  {
    ClockFields(total);
    var h, m, s := Hours(total), Minutes(total), Seconds(total);
    var secondsTail := ":" + Pad2(s);
    var minutesTail := ":" + (Pad2(m) + secondsTail);
    assert t == NatToString(h) + minutesTail;
    NatToStringValue(h);
    ReadNumeralOf(NatToString(h), minutesTail);
    ReadPadded(m, secondsTail, minutesTail[1..]);
    assert secondsTail[1..] == Pad2(s) + [];
    ReadPadded(s, [], secondsTail[1..]);
    ClockOfThreeFields(t, total, h, |NatToString(h)|, m, s, minutesTail, secondsTail);
  }

  lemma FormatTimeWithoutHours(total: nat, t: string)
    requires Hours(total) == 0 && t == FormatTime(total)
    ensures ParseClock(t) == Some(total)
  {
    ClockFields(total);
    var m, s := Minutes(total), Seconds(total);
    var tail := ":" + Pad2(s);
    assert t == Pad2(m) + tail;
    ReadPadded(m, tail, t);
    assert tail[1..] == Pad2(s) + [];
    ReadPadded(s, [], tail[1..]);
    ClockOfTwoFields(t, total, m, s, tail);
  }

  /** "H:MM:SS" when there are hours, "MM:SS" otherwise: minutes and seconds always take two digits. */
  lemma FormatTimeLayout(total: nat)
    ensures var t := FormatTime(total);
      && |t| == (if Hours(total) > 0 then |NatToString(Hours(total))| + 6 else 5)
      && t[|t| - 3] == ':'
      && (Hours(total) > 0 ==> t[|t| - 6] == ':')
      && AllDigits(t[|t| - 2..]) && AllDigits(t[|t| - 5..|t| - 3])
  {
    ClockFields(total);
    var h, m, s := Hours(total), Minutes(total), Seconds(total);
    var t := FormatTime(total);
    var clock := Pad2(m) + (":" + Pad2(s));
    PaddedClock(m, s, clock);
    if h > 0 {
      var prefix := NatToString(h) + ":";
      assert t == prefix + clock;
      ClockAtEnd(prefix, clock, t);
      assert t[|t| - 6] == prefix[|prefix| - 1];
    } else {
      assert t == [] + clock;
      ClockAtEnd([], clock, t);
    }
  }

  /** "MM:SS" is five characters: two digits, a colon, two digits. */
  lemma PaddedClock(m: nat, s: nat, clock: string)
    requires m < 60 && s < 60 && clock == Pad2(m) + (":" + Pad2(s))
    ensures |clock| == 5 && clock[2] == ':' && AllDigits(clock[..2]) && AllDigits(clock[3..])
  {
    assert clock[3..] == Pad2(s) && clock[..2] == Pad2(m);
  }

  lemma ClockAtEnd(prefix: string, clock: string, t: string)
    requires |clock| == 5 && clock[2] == ':' && AllDigits(clock[..2]) && AllDigits(clock[3..])
    requires t == prefix + clock
    ensures |t| == |prefix| + 5 && t[|t| - 3] == ':'
    ensures AllDigits(t[|t| - 2..]) && AllDigits(t[|t| - 5..|t| - 3])
  {
    assert t[|t| - 2..] == clock[3..];
    assert t[|t| - 5..|t| - 3] == clock[..2];
  }

  /** Fields below 60 are the minutes and seconds of the total they make up. */
  lemma FieldsOfTotal(total: nat, h: nat, m: nat, s: nat)
    requires m < 60 && s < 60 && total == h * 3600 + m * 60 + s
    ensures Hours(total) == h && Minutes(total) == m && Seconds(total) == s
  {
    ClockFields(total);
    var h', m', s' := Hours(total), Minutes(total), Seconds(total);
    assert 3600 * (h - h') == 60 * (m' - m) + (s' - s);
    assert h == h';
    assert 60 * (m - m') == s' - s;
  }

  /** The one text that reads back as a total: any text the reader maps to `total` is its label. */
  lemma ClockReaderCanonical(t: string, total: nat)
    requires ParseClock(t) == Some(total)
    ensures t == FormatTime(total)
  {
    var a := ReadNumeral(t).value;
    var r := a.rest[1..];
    assert a.rest == ":" + r;
    AfterColonIsLabel(t, total, a, r);
  }

  lemma AfterColonIsLabel(t: string, total: nat, a: Numeral, r: string)
    requires ReadNumeral(t) == Some(a) && a.rest == ":" + r
    requires ParseAfterFirstColon(a, NoLeadingZero(t[..a.width]), r) == Some(total)
    ensures t == FormatTime(total)
  {
    var b := ReadNumeral(r).value;
    assert t == t[..a.width] + (":" + r);
    if b.rest == [] {
      MinutesSecondsIsLabel(t, total, a, r, b);
    } else {
      HoursMinutesSecondsIsLabel(t, total, a, r, b);
    }
  }

  /** A text read as "MM:SS" is the label of a total below an hour. */
  lemma MinutesSecondsIsLabel(t: string, total: nat, a: Numeral, r: string, b: Numeral)
    requires ReadNumeral(t) == Some(a) && ReadNumeral(r) == Some(b) && t == t[..a.width] + (":" + r)
    requires a.width == 2 && a.value < 60 && b.width == 2 && b.value < 60 && b.rest == []
    requires total == a.value * 60 + b.value
    ensures t == FormatTime(total)
  {
    TwoDigits(t[..2]);
    TwoDigits(r[..2]);
    assert r == r[..2];
    FieldsOfTotal(total, 0, a.value, b.value);
    assert t == Pad2(a.value) + (":" + Pad2(b.value));
  }

  /** A text read as "H:MM:SS" is the label of a total of at least an hour. */
  lemma HoursMinutesSecondsIsLabel(t: string, total: nat, a: Numeral, r: string, b: Numeral)
    requires ReadNumeral(t) == Some(a) && ReadNumeral(r) == Some(b) && t == t[..a.width] + (":" + r)
    requires b.width == 2 && b.value < 60 && b.rest != [] && b.rest[0] == ':' && a.value > 0
    requires NoLeadingZero(t[..a.width])
    requires ParseSecondsField(a.value, b.value, b.rest[1..]) == Some(total)
    ensures t == FormatTime(total)
  {
    CanonicalDigits(t[..a.width]);
    TwoDigits(r[..2]);
    var r2 := b.rest[1..];
    var c := ReadNumeral(r2).value;
    TwoDigits(r2[..2]);
    assert r2 == r2[..2];
    assert b.rest == ":" + r2;
    assert r == r[..2] + b.rest;
    FieldsOfTotal(total, a.value, b.value, c.value);
    assert t == NatToString(a.value) + (":" + (Pad2(b.value) + (":" + Pad2(c.value))));
  }
}
