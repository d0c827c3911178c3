/**
 * The interval scheduler (`DeviceActivityCenter`): the named intervals
 * currently registered, each with its start and end wall-clock components
 * and whether it repeats.  Whether the platform accepts a registration is an
 * outcome the caller passes in.
 */
module DeviceActivity {
  import opened Wrappers

  type ActivityName = string

  /** `DateComponents` restricted to the fields the core fills in. */
  datatype DateComponents = DateComponents(hour: Option<int>, minute: Option<int>, second: Option<int>)

  datatype DeviceActivitySchedule = DeviceActivitySchedule(
    intervalStart: DateComponents,
    intervalEnd: DateComponents,
    repeats: bool)

  const SecondsPerDay := 86400

  /**
   * `Calendar.current.dateComponents([.hour, .minute, .second], from: t)`
   * for an instant `t` in seconds, taking the calendar's time zone as UTC.
   */
  function ClockComponents(t: int): (c: DateComponents)
    ensures c.hour.Some? && c.minute.Some? && c.second.Some?
    ensures 0 <= c.hour.value < 24 && 0 <= c.minute.value < 60 && 0 <= c.second.value < 60
    ensures c.hour.value * 3600 + c.minute.value * 60 + c.second.value == t % SecondsPerDay
  {
    var d := t % SecondsPerDay;
    var r := d % 3600;
    assert d == 3600 * (d / 3600) + r && r == 60 * (r / 60) + r % 60;
    DateComponents(Some(d / 3600), Some(r / 60), Some(r % 60))
  }

  class DeviceActivityCenter {
    var activities: map<ActivityName, DeviceActivitySchedule>

    constructor (initial: map<ActivityName, DeviceActivitySchedule>)
      ensures activities == initial
    {
      activities := initial;
    }

    /**
     * `startMonitoring(name, during:)`: registering a name again replaces its
     * schedule; when the platform refuses (`accepted` false), the call throws
     * and nothing is registered.
     */
    method StartMonitoring(name: ActivityName, schedule: DeviceActivitySchedule, accepted: bool) returns (failed: bool)
      modifies this
      ensures failed == !accepted
      ensures activities == if accepted then old(activities)[name := schedule] else old(activities)
    {
      failed := !accepted;
      if accepted {
        activities := activities[name := schedule];
      }
    }

    /** `stopMonitoring(names)`: unregisters those names; other registrations stay. */
    method StopMonitoring(names: set<ActivityName>)
      modifies this
      ensures activities == old(activities) - names
    {
      activities := activities - names;
    }
  }
}
