/**
 * Whole-app runs: a controller over one shared store, one shield store and
 * one activity centre, driven through sequences of user actions and timer
 * firings.  Each method's postcondition states what the run ends in.
 */
module Scenarios {
  import opened Wrappers
  import opened StrictnessModes
  import opened ScheduleModes
  import opened SleepSessions
  import opened FamilyControls
  import opened ManagedSettings
  import opened DeviceActivity
  import opened Shields
  import opened SharedStore
  import opened SessionControl
  import opened ScheduleControl
  import opened Monitor

  /** A device whose store holds only the allowed-apps selection, with no shield and no interval. */
  method NewDevice(selection: ActivitySelection, now: int) returns (vm: SessionViewModel)
    ensures fresh(vm) && fresh(vm.store) && fresh(vm.shieldManager) && fresh(vm.shieldManager.store) && fresh(vm.activityCenter)
    ensures vm.Valid() && vm.activeSession == None
    ensures !vm.isCancelling && !vm.cancelTimer && vm.orphanTimers == 0 && vm.cancelCountdown == CancelDelay
    ensures vm.store.defaults == map[AllowedAppsKey := SelectionData(selection)]
    ensures vm.shieldManager.store.shield == Cleared && vm.activityCenter.activities == map[]
  {
    var store := new SharedSessionStore(map[AllowedAppsKey := SelectionData(selection)]);
    var settings := new ManagedSettingsStore(Cleared);
    var shieldManager := new ShieldManager(settings);
    var center := new DeviceActivityCenter(map[]);
    vm := new SessionViewModel(store, shieldManager, center, now);
  }

  /**
   * "Cancel" on any controller holding a flexible session, whatever its store,
   * shield, registrations or stray timers hold: the handle's timer fires until
   * the countdown stops, which takes exactly thirty firings, and the last one
   * ends the session in memory, in the store, in the shield and in the
   * activity centre.  A handle that was live before is orphaned.
   */
  method CancelThenThirtyTicks(vm: SessionViewModel) returns (ticks: nat)
    requires vm.Valid() && vm.activeSession.Some? && vm.activeSession.value.strictness == Flexible
    modifies vm, vm.store, vm.shieldManager.store, vm.activityCenter
    ensures ticks == CancelDelay && vm.Valid()
    ensures vm.activeSession == None && !vm.isCancelling && !vm.cancelTimer && vm.cancelCountdown == 0
    ensures vm.orphanTimers == old(vm.orphanTimers) + (if old(vm.cancelTimer) then 1 else 0)
    ensures vm.store.defaults == old(vm.store.defaults) - {ActiveSessionKey}
    ensures vm.shieldManager.store.shield == Cleared
    ensures vm.activityCenter.activities == old(vm.activityCenter.activities) - {SleepSessionActivity}
  {
    vm.BeginCancel();
    ticks := 0;
    while vm.isCancelling
      invariant vm.Valid() && vm.cancelTimer == vm.isCancelling
      invariant vm.orphanTimers == old(vm.orphanTimers) + (if old(vm.cancelTimer) then 1 else 0)
      invariant 0 <= ticks <= CancelDelay
      invariant vm.isCancelling ==>
        && vm.cancelCountdown == CancelDelay - ticks && vm.activeSession.Some?
        && vm.store.defaults == old(vm.store.defaults)
        && vm.shieldManager.store.shield == old(vm.shieldManager.store.shield)
        && vm.activityCenter.activities == old(vm.activityCenter.activities)
      invariant !vm.isCancelling ==>
        && ticks == CancelDelay && vm.activeSession == None && vm.cancelCountdown == 0
        && vm.store.defaults == old(vm.store.defaults) - {ActiveSessionKey}
        && vm.shieldManager.store.shield == Cleared
        && vm.activityCenter.activities == old(vm.activityCenter.activities) - {SleepSessionActivity}
      decreases CancelDelay - ticks
    {
      vm.Tick();
      ticks := ticks + 1;
    }
  }

  /**
   * On a new device: a flexible session, then "cancel": thirty firings end
   * the session, its record, its shield and its interval.
   */
  method CancelTakesThirtySeconds(selection: ActivitySelection, durationMinutes: int, id: Uuid, now: int,
                                  encoded: bool, accepted: bool)
    returns (ticks: nat, ended: bool, recordCleared: bool, shieldCleared: bool, intervalGone: bool)
    ensures ticks == CancelDelay
    ensures ended && recordCleared && shieldCleared && intervalGone
  {
    var vm := NewDevice(selection, now);
    vm.StartManualSession(durationMinutes, Flexible, id, now, encoded, accepted);
    ticks := CancelThenThirtyTicks(vm);
    ended := vm.activeSession == None;
    recordCleared := vm.store.LoadSession() == None;
    shieldCleared := vm.shieldManager.store.shield == Cleared;
    intervalGone := SleepSessionActivity !in vm.activityCenter.activities;
  }

  /** "Cancel" then "keep session": the session, end time included, is kept and the countdown is back at 30. */
  method AbortKeepsSession(selection: ActivitySelection, durationMinutes: int, id: Uuid, now: int,
                           encoded: bool, accepted: bool)
    returns (session: Option<SleepSession>, countdown: int, cancelling: bool)
    ensures session == Some(ManualSession(id, durationMinutes, Flexible, now))
    ensures countdown == CancelDelay && !cancelling
  {
    var vm := NewDevice(selection, now);
    vm.StartManualSession(durationMinutes, Flexible, id, now, encoded, accepted);
    vm.BeginCancel();
    vm.Tick();
    vm.Tick();
    vm.AbortCancel();
    session := vm.activeSession;
    countdown := vm.cancelCountdown;
    cancelling := vm.isCancelling;
  }

  /** A strict session cannot be cancelled: "cancel" changes nothing and no timer fires. */
  method StrictIgnoresCancel(selection: ActivitySelection, durationMinutes: int, id: Uuid, now: int,
                             encoded: bool, accepted: bool)
    returns (session: Option<SleepSession>, cancelling: bool)
    ensures session == Some(ManualSession(id, durationMinutes, Strict, now)) && !cancelling
  {
    var vm := NewDevice(selection, now);
    vm.StartManualSession(durationMinutes, Strict, id, now, encoded, accepted);
    vm.BeginCancel();
    vm.Tick();
    session := vm.activeSession;
    cancelling := vm.isCancelling;
  }

  /**
   * A one-minute session: the expiry check 59 seconds in keeps it, the one
   * 61 seconds in ends it.
   */
  method OneMinuteSessionExpires(selection: ActivitySelection, strictness: StrictnessMode, id: Uuid, now: int,
                                 encoded: bool, accepted: bool)
    returns (activeAt59: bool, shownWhileExpired: bool, activeAt61: bool, activeAfterSecondCheck: bool)
    ensures activeAt59 && !activeAt61 && !activeAfterSecondCheck
    ensures shownWhileExpired
  {
    var vm := NewDevice(selection, now);
    vm.StartManualSession(1, strictness, id, now, encoded, accepted);
    vm.CheckExpiry(now + 59);
    activeAt59 := vm.HasActiveSession();
    // 61 seconds in, the session is over, but until the next check it is still reported as active
    shownWhileExpired := vm.HasActiveSession() && IsExpired(vm.activeSession.value, now + 61);
    vm.CheckExpiry(now + 61);
    activeAt61 := vm.HasActiveSession();
    vm.CheckExpiry(now + 62);
    activeAfterSecondCheck := vm.HasActiveSession();
  }

  /**
   * Pressing "cancel" twice orphans the first timer.  "Keep session" stops
   * only the second, so the orphan ends the session thirty seconds later;
   * and since it is never stopped and the countdown is then at or below
   * zero, its next firing also ends a strict session started afterwards.
   */
  method OrphanTimerEndsSessions(selection: ActivitySelection, durationMinutes: int, id1: Uuid, id2: Uuid, now: int,
                                 encoded: bool, accepted: bool)
    returns (strayTicks: nat, firstEnded: bool, secondStarted: bool, secondEnded: bool, orphans: nat)
    ensures strayTicks == CancelDelay && firstEnded
    ensures secondStarted && secondEnded && orphans == 1
  {
    var vm := NewDevice(selection, now);
    vm.StartManualSession(durationMinutes, Flexible, id1, now, encoded, accepted);
    vm.BeginCancel();
    vm.BeginCancel();
    vm.AbortCancel();
    strayTicks := 0;
    while vm.activeSession.Some?
      invariant vm.Valid() && vm.orphanTimers == 1 && !vm.cancelTimer
      invariant 0 <= strayTicks <= CancelDelay
      invariant vm.activeSession.Some? ==> strayTicks < CancelDelay && vm.cancelCountdown == CancelDelay - strayTicks
      invariant vm.activeSession == None ==> strayTicks == CancelDelay && vm.cancelCountdown == 0
      decreases CancelDelay - strayTicks
    {
      vm.StrayTick();
      strayTicks := strayTicks + 1;
    }
    firstEnded := vm.activeSession == None;
    vm.StartManualSession(durationMinutes, Strict, id2, now + CancelDelay, encoded, accepted);
    secondStarted := vm.HasActiveSession();
    vm.StrayTick();
    secondEnded := vm.activeSession == None;
    orphans := vm.orphanTimers;
  }

  /**
   * The nightly schedule and a manual session share the activity centre:
   * the emergency reset removes only the session's interval, so the nightly
   * registration stays.
   */
  method NightlySurvivesEmergencyReset(selection: ActivitySelection, durationMinutes: int, id: Uuid, now: int,
                                       accepted: bool)
    returns (nightly: Option<DeviceActivitySchedule>, sessionInterval: bool)
    ensures accepted ==> nightly == Some(NightlyInterval(Default.(isEnabled := true)))
    ensures !accepted ==> nightly == None
    ensures !sessionInterval
  {
    var vm := NewDevice(selection, now);
    var schedules := new ScheduleViewModel(vm.store, vm.activityCenter);
    schedules.ToggleEnabled(true, accepted);
    vm.StartManualSession(durationMinutes, Flexible, id, now, true, accepted);
    vm.EmergencyReset();
    nightly := if NightlyScheduleActivity in vm.activityCenter.activities
               then Some(vm.activityCenter.activities[NightlyScheduleActivity]) else None;
    sessionInterval := SleepSessionActivity in vm.activityCenter.activities;
  }

  /**
   * The reactor's interval end clears every shield and the session record
   * whichever interval ended, so a nightly interval ending during a manual
   * session leaves the controller showing an active session that the store
   * no longer holds and no shield enforces.
   */
  method NightlyEndDropsManualSession(selection: ActivitySelection, durationMinutes: int, id: Uuid, now: int,
                                      accepted: bool)
    returns (shownActive: bool, stored: Option<SleepSession>, shield: ShieldSettings)
    ensures shownActive && stored == None && shield == Cleared
  {
    var vm := NewDevice(selection, now);
    var monitor := new SleepInducerMonitor(vm.shieldManager.store, vm.store);
    vm.StartManualSession(durationMinutes, Strict, id, now, true, accepted);
    monitor.IntervalDidEnd(NightlyScheduleActivity);
    shownActive := vm.HasActiveSession();
    stored := vm.store.LoadSession();
    shield := vm.shieldManager.store.shield;
  }

  /**
   * Interval end twice: the second call finds nothing left to clear, and
   * the allow-list, schedule and strictness records survive both.
   */
  method IntervalEndTwice(selection: ActivitySelection, durationMinutes: int, id: Uuid, now: int, accepted: bool)
    returns (afterFirst: Records, afterSecond: Records, shield: ShieldSettings)
    ensures afterSecond == afterFirst
    ensures afterFirst == Records(None, selection, None, Flexible) && shield == Cleared
  {
    var vm := NewDevice(selection, now);
    var monitor := new SleepInducerMonitor(vm.shieldManager.store, vm.store);
    vm.StartManualSession(durationMinutes, Flexible, id, now, true, accepted);
    monitor.IntervalDidEnd(SleepSessionActivity);
    afterFirst := vm.store.Loaded();
    monitor.IntervalDidEnd(NightlyScheduleActivity);
    afterSecond := vm.store.Loaded();
    shield := vm.shieldManager.store.shield;
  }

  /**
   * The reactor's interval start over the gate's shield: the allowed
   * application ends up named in the shielded set as well as in the gate's
   * exemption list, and the reactor's settings win for it.
   */
  method ReactorStartOverSession(selection: ActivitySelection, durationMinutes: int, id: Uuid, now: int,
                                 accepted: bool, app: ApplicationToken, categoryOf: ApplicationToken -> CategoryToken)
    returns (shielded: bool)
    requires app in selection.applicationTokens
    ensures shielded
  {
    var vm := NewDevice(selection, now);
    var monitor := new SleepInducerMonitor(vm.shieldManager.store, vm.store);
    vm.StartManualSession(durationMinutes, Strict, id, now, true, accepted);
    monitor.IntervalDidStart(SleepSessionActivity);
    shielded := ApplicationShielded(vm.shieldManager.store.shield, app, categoryOf);
  }
}
