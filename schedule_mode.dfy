/** How a session was requested, and the user's recurring nightly window. */
module ScheduleModes {
  import opened StrictnessModes

  /** A session is either manual with a duration, or recurring between two wall-clock times. */
  datatype ScheduleMode =
    | Manual(durationMinutes: int)
    | Recurring(startHour: int, startMinute: int, endHour: int, endMinute: int)

  datatype RecurringSchedule = RecurringSchedule(
    isEnabled: bool,
    startHour: int,
    startMinute: int,
    endHour: int,
    endMinute: int,
    strictness: StrictnessMode)

  /** `RecurringSchedule.default`: disabled, 22:00 to 07:00, flexible. */
  const Default: RecurringSchedule := RecurringSchedule(false, 22, 0, 7, 0, Flexible)

  function StartMinuteOfDay(s: RecurringSchedule): int { s.startHour * 60 + s.startMinute }
  function EndMinuteOfDay(s: RecurringSchedule): int { s.endHour * 60 + s.endMinute }

  /** The window ends on the next day. */
  predicate WrapsMidnight(s: RecurringSchedule) {
    EndMinuteOfDay(s) < StartMinuteOfDay(s)
  }

  /** Hours in [0,23] and minutes in [0,59], as a calendar produces them. */
  predicate WellFormed(s: RecurringSchedule) {
    0 <= s.startHour <= 23 && 0 <= s.startMinute <= 59 &&
    0 <= s.endHour <= 23 && 0 <= s.endMinute <= 59
  }

  lemma DefaultSchedule()
    ensures !Default.isEnabled
    ensures Default.startHour == 22 && Default.startMinute == 0
    ensures Default.endHour == 7 && Default.endMinute == 0
    ensures Default.strictness == Flexible
    ensures WellFormed(Default) && WrapsMidnight(Default)
  {
  }

  /** Synthesised `Equatable`: two schedules are equal exactly when all six fields are. */
  lemma RecurringScheduleEquality(a: RecurringSchedule, b: RecurringSchedule)
    ensures a == b <==>
      a.isEnabled == b.isEnabled && a.startHour == b.startHour && a.startMinute == b.startMinute &&
      a.endHour == b.endHour && a.endMinute == b.endMinute && a.strictness == b.strictness
  {
  }

  /** Synthesised `Equatable` on the enum: the two cases never meet, and within a case the payloads decide. */
  lemma ScheduleModeEquality(a: ScheduleMode, b: ScheduleMode)
    ensures a.Manual? && b.Recurring? ==> a != b
    ensures a.Manual? && b.Manual? ==> (a == b <==> a.durationMinutes == b.durationMinutes)
    ensures a.Recurring? && b.Recurring? ==>
      (a == b <==> a.startHour == b.startHour && a.startMinute == b.startMinute &&
                   a.endHour == b.endHour && a.endMinute == b.endMinute)
  {
  }
}
