/**
 * The recurring-schedule editor (`ScheduleViewModel`): edits the nightly
 * window, writes it to the shared store and keeps the repeating
 * "nightlySchedule" interval registered while the schedule is enabled.
 */
module ScheduleControl {
  import opened Wrappers
  import opened ScheduleModes
  import opened DeviceActivity
  import opened SharedStore

  /** The interval name the recurring schedule registers. */
  const NightlyScheduleActivity: ActivityName := "nightlySchedule"

  /** The repeating interval for a schedule: its start and end hour and minute, every day. */
  function NightlyInterval(schedule: RecurringSchedule): (r: DeviceActivitySchedule)
    ensures r.repeats
    ensures r.intervalStart == DateComponents(Some(schedule.startHour), Some(schedule.startMinute), None)
    ensures r.intervalEnd == DateComponents(Some(schedule.endHour), Some(schedule.endMinute), None)
  {
    DeviceActivitySchedule(
      DateComponents(Some(schedule.startHour), Some(schedule.startMinute), None),
      DateComponents(Some(schedule.endHour), Some(schedule.endMinute), None),
      true)
  }

  /** The intervals after saving `schedule`: registered (if the platform accepts) while enabled, unregistered otherwise. */
  function AfterSave(activities: map<ActivityName, DeviceActivitySchedule>, schedule: RecurringSchedule, accepted: bool)
    : (r: map<ActivityName, DeviceActivitySchedule>)
    ensures schedule.isEnabled && accepted ==> NightlyScheduleActivity in r && r[NightlyScheduleActivity] == NightlyInterval(schedule)
    ensures !schedule.isEnabled ==> NightlyScheduleActivity !in r
    ensures forall name :: name != NightlyScheduleActivity ==>
      (name in r <==> name in activities) && (name in r ==> r[name] == activities[name])
    ensures schedule.isEnabled && !accepted ==> r == activities
  {
    if schedule.isEnabled then
      if accepted then activities[NightlyScheduleActivity := NightlyInterval(schedule)] else activities
    else activities - {NightlyScheduleActivity}
  }

  class ScheduleViewModel {
    var schedule: RecurringSchedule

    const store: SharedSessionStore
    const activityCenter: DeviceActivityCenter

    /** `init()`: the stored schedule, or the default when none loads. */
    constructor (store: SharedSessionStore, activityCenter: DeviceActivityCenter)
      ensures this.store == store && this.activityCenter == activityCenter
      ensures store.LoadSchedule().Some? ==> schedule == store.LoadSchedule().value
      ensures store.LoadSchedule().None? ==> schedule == Default
    {
      this.store := store;
      this.activityCenter := activityCenter;
      schedule := store.LoadSchedule().GetOr(Default);
    }

    /**
     * The `startTime` setter, given the hour and minute components the
     * calendar gives for the new date: only the start changes, with 22 and 0
     * for a missing component.
     */
    method SetStartTime(components: DateComponents)
      modifies this
      ensures schedule == old(schedule).(startHour := components.hour.GetOr(22), startMinute := components.minute.GetOr(0))
      ensures (WellFormed(old(schedule)) && 0 <= components.hour.GetOr(22) <= 23
               && 0 <= components.minute.GetOr(0) <= 59) ==> WellFormed(schedule)
    {
      schedule := schedule.(startHour := components.hour.GetOr(22));
      schedule := schedule.(startMinute := components.minute.GetOr(0));
    }

    /** The `endTime` setter: only the end changes, with 7 and 0 for a missing component. */
    method SetEndTime(components: DateComponents)
      modifies this
      ensures schedule == old(schedule).(endHour := components.hour.GetOr(7), endMinute := components.minute.GetOr(0))
      ensures (WellFormed(old(schedule)) && 0 <= components.hour.GetOr(7) <= 23
               && 0 <= components.minute.GetOr(0) <= 59) ==> WellFormed(schedule)
    {
      schedule := schedule.(endHour := components.hour.GetOr(7));
      schedule := schedule.(endMinute := components.minute.GetOr(0));
    }

    /**
     * `save()`: writes the schedule record (when it encodes), then registers
     * or unregisters "nightlySchedule"; a refused registration is swallowed
     * and the record stays written.  The session record is never touched.
     */
    method Save(encoded: bool, accepted: bool)
      modifies store, activityCenter
      ensures store.defaults == if encoded then old(store.defaults)[RecurringScheduleKey := ScheduleData(schedule)]
                                else old(store.defaults)
      ensures store.Loaded() == if encoded then old(store.Loaded()).(schedule := Some(schedule)) else old(store.Loaded())
      ensures activityCenter.activities == AfterSave(old(activityCenter.activities), schedule, accepted)
    {
      store.SaveSchedule(schedule, encoded);
      if schedule.isEnabled {
        StartScheduleMonitoring(accepted);
      } else {
        StopScheduleMonitoring();
      }
    }

    /** `toggleEnabled()`: flips the flag, then saves. */
    method ToggleEnabled(encoded: bool, accepted: bool)
      modifies this, store, activityCenter
      ensures schedule == old(schedule).(isEnabled := !old(schedule).isEnabled)
      ensures store.defaults == if encoded then old(store.defaults)[RecurringScheduleKey := ScheduleData(schedule)]
                                else old(store.defaults)
      ensures store.Loaded() == if encoded then old(store.Loaded()).(schedule := Some(schedule)) else old(store.Loaded())
      ensures activityCenter.activities == AfterSave(old(activityCenter.activities), schedule, accepted)
    {
      schedule := schedule.(isEnabled := !schedule.isEnabled);
      Save(encoded, accepted);
    }

    method StartScheduleMonitoring(accepted: bool)
      modifies activityCenter
      ensures activityCenter.activities ==
        if accepted then old(activityCenter.activities)[NightlyScheduleActivity := NightlyInterval(schedule)]
        else old(activityCenter.activities)
    {
      var failed := activityCenter.StartMonitoring(NightlyScheduleActivity, NightlyInterval(schedule), accepted);
    }

    method StopScheduleMonitoring()
      modifies activityCenter
      ensures activityCenter.activities == old(activityCenter.activities) - {NightlyScheduleActivity}
    {
      activityCenter.StopMonitoring({NightlyScheduleActivity});
    }
  }
}
