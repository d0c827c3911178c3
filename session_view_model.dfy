/**
 * The session lifecycle controller (`SessionViewModel`): starts manual
 * sessions, runs the 30-second flexible cancel countdown, ends sessions on
 * expiry, resets everything on request, and adopts a stored session at
 * launch.  It drives the shared store, the enforcement gate and the interval
 * scheduler, all of which it holds as references.
 *
 * The countdown timer is a handle: `cancelTimer` is true while it names a
 * scheduled timer that has not been invalidated.  Scheduling a new timer
 * over a live handle drops the old one without invalidating it; such timers
 * go on firing and are counted in `orphanTimers`.
 */
module SessionControl {
  import opened Wrappers
  import opened SwiftInt
  import opened StrictnessModes
  import opened SleepSessions
  import opened ManagedSettings
  import opened DeviceActivity
  import opened Shields
  import opened SharedStore

  /** The interval name a manual session registers. */
  const SleepSessionActivity: ActivityName := "sleepSession"

  /** Seconds the flexible cancel countdown starts from. */
  const CancelDelay: int := 30

  /** The one-shot interval registered for a session started at `now` and ending at `endDate`. */
  function SessionInterval(now: int, endDate: int): (r: DeviceActivitySchedule)
    ensures !r.repeats
    ensures r.intervalStart == ClockComponents(now) && r.intervalEnd == ClockComponents(endDate)
  {
    DeviceActivitySchedule(ClockComponents(now), ClockComponents(endDate), false)
  }

  /** The flexible policy's description states the controller's countdown length. */
  lemma FlexibleDescriptionStatesDelay()
    ensures Description(Flexible) == "Cancel with a " + NatToString(CancelDelay) + "-second delay"
  {
    assert NatToString(30) == "30" by {
      assert NatToString(3) == "3";
    }
  }

  class SessionViewModel {
    var activeSession: Option<SleepSession>
    var isCancelling: bool
    var cancelCountdown: int
    var cancelTimer: bool
    var orphanTimers: nat

    const store: SharedSessionStore
    const shieldManager: ShieldManager
    const activityCenter: DeviceActivityCenter

    /** A live timer handle only exists during a cancel with at least one tick to go. */
    ghost predicate Valid()
      reads this
    {
      && cancelCountdown <= CancelDelay
      && (cancelTimer ==> isCancelling && cancelCountdown >= 1)
    }

    /** The countdown fields, the timer handle and the stray timers are as before. */
    twostate predicate CountdownUnchanged()
      reads this
    {
      && isCancelling == old(isCancelling)
      && cancelCountdown == old(cancelCountdown)
      && cancelTimer == old(cancelTimer)
      && orphanTimers == old(orphanTimers)
    }

    /** The store, the shield settings and the registered intervals are as before. */
    twostate predicate EnvironmentUnchanged()
      reads this, store, shieldManager.store, activityCenter
    {
      && store.defaults == old(store.defaults)
      && shieldManager.store.shield == old(shieldManager.store.shield)
      && activityCenter.activities == old(activityCenter.activities)
    }

    /** The end-of-session path has run: no session in memory or in the store, no shield, no session interval. */
    twostate predicate SessionEnded()
      reads this, store, shieldManager.store, activityCenter
    {
      && activeSession == None
      && store.defaults == old(store.defaults) - {ActiveSessionKey}
      && shieldManager.store.shield == Cleared
      && activityCenter.activities == old(activityCenter.activities) - {SleepSessionActivity}
    }

    /** `init()`: fresh countdown state, then cold-start reconciliation with the store. */
    constructor (store: SharedSessionStore, shieldManager: ShieldManager, activityCenter: DeviceActivityCenter, now: int)
      modifies store, shieldManager.store, activityCenter
      ensures Valid()
      ensures this.store == store && this.shieldManager == shieldManager && this.activityCenter == activityCenter
      ensures !isCancelling && cancelCountdown == CancelDelay && !cancelTimer && orphanTimers == 0
      ensures old(store.LoadSession()).Some? && IsExpired(old(store.LoadSession()).value, now) ==>
        && activeSession == None
        && store.defaults == old(store.defaults) - {ActiveSessionKey}
        && shieldManager.store.shield == Cleared
        && activityCenter.activities == old(activityCenter.activities) - {SleepSessionActivity}
      ensures !(old(store.LoadSession()).Some? && IsExpired(old(store.LoadSession()).value, now)) ==>
        && activeSession == old(store.LoadSession())
        && store.defaults == old(store.defaults)
        && shieldManager.store.shield == old(shieldManager.store.shield)
        && activityCenter.activities == old(activityCenter.activities)
    {
      this.store := store;
      this.shieldManager := shieldManager;
      this.activityCenter := activityCenter;
      activeSession := None;
      isCancelling := false;
      cancelCountdown := CancelDelay;
      cancelTimer := false;
      orphanTimers := 0;
      new;
      LoadExistingSession(now);
    }

    /** `hasActiveSession` looks only at the session's flag, not at its end time. */
    function HasActiveSession(): (r: bool)
      reads this
      ensures r <==> activeSession.Some? && activeSession.value.isActive
    {
      activeSession.Some? && activeSession.value.isActive
    }

    /**
     * `startManualSession(durationMinutes:strictness:)` at `now`, with a new
     * session identifier `id`: stores and adopts the session, shields with the
     * stored allow-list and registers the one-shot interval.  Nothing guards
     * against a session already running, nothing is undone when registration
     * fails, and a running cancel countdown is left alone.
     */
    method StartManualSession(durationMinutes: int, strictness: StrictnessMode, id: Uuid, now: int,
                              encoded: bool, accepted: bool)
      requires Valid()
      modifies this, store, shieldManager.store, activityCenter
      ensures Valid() && CountdownUnchanged()
      ensures activeSession == Some(ManualSession(id, durationMinutes, strictness, now))
      ensures store.Loaded() == if encoded then old(store.Loaded()).(session := activeSession) else old(store.Loaded())
      ensures store.defaults == if encoded then old(store.defaults)[ActiveSessionKey := SessionData(activeSession.value)]
                                else old(store.defaults)
      ensures shieldManager.store.shield == Activated(old(shieldManager.store.shield), old(store.LoadAllowedApps()))
      ensures activityCenter.activities ==
        if accepted then old(activityCenter.activities)[SleepSessionActivity := SessionInterval(now, activeSession.value.endsAt)]
        else old(activityCenter.activities)
    {
      var session := ManualSession(id, durationMinutes, strictness, now);
      ActivateSession(session, now, encoded, accepted);
    }

    method ActivateSession(session: SleepSession, now: int, encoded: bool, accepted: bool)
      requires Valid()
      modifies this, store, shieldManager.store, activityCenter
      ensures Valid() && CountdownUnchanged()
      ensures activeSession == Some(session)
      ensures store.Loaded() == if encoded then old(store.Loaded()).(session := Some(session)) else old(store.Loaded())
      ensures store.defaults == if encoded then old(store.defaults)[ActiveSessionKey := SessionData(session)]
                                else old(store.defaults)
      ensures shieldManager.store.shield == Activated(old(shieldManager.store.shield), old(store.LoadAllowedApps()))
      ensures activityCenter.activities ==
        if accepted then old(activityCenter.activities)[SleepSessionActivity := SessionInterval(now, session.endsAt)]
        else old(activityCenter.activities)
    {
      store.SaveSession(session, encoded);
      activeSession := Some(session);
      var allowedApps := store.LoadAllowedApps();
      shieldManager.ActivateShield(allowedApps);
      StartMonitoring(session.endsAt, now, accepted);
    }

    /**
     * `beginCancel()`: only a flexible session can be cancelled.  It restarts
     * the countdown at 30 and schedules a new timer, orphaning the one the
     * handle named, if any.
     */
    method BeginCancel()
      requires Valid()
      modifies this
      ensures Valid() && activeSession == old(activeSession)
      ensures old(activeSession).Some? && old(activeSession).value.strictness == Flexible ==>
        && isCancelling && cancelCountdown == CancelDelay && cancelTimer
        && orphanTimers == old(orphanTimers) + (if old(cancelTimer) then 1 else 0)
      ensures !(old(activeSession).Some? && old(activeSession).value.strictness == Flexible) ==> CountdownUnchanged()
    {
      if !(activeSession.Some? && activeSession.value.strictness == Flexible) {
        return;
      }
      isCancelling := true;
      cancelCountdown := CancelDelay;
      if cancelTimer {
        orphanTimers := orphanTimers + 1;
      }
      cancelTimer := true;
    }

    /**
     * The timer closure: one second off the countdown; at zero, invalidate
     * the timer the handle names and end the session.
     */
    method FireTimer()
      requires Valid()
      modifies this, store, shieldManager.store, activityCenter
      ensures Valid() && cancelCountdown == old(cancelCountdown) - 1 && orphanTimers == old(orphanTimers)
      ensures cancelCountdown > 0 ==>
        && isCancelling == old(isCancelling) && cancelTimer == old(cancelTimer)
        && activeSession == old(activeSession) && EnvironmentUnchanged()
      ensures cancelCountdown <= 0 ==> !isCancelling && !cancelTimer && SessionEnded()
    {
      cancelCountdown := cancelCountdown - 1;
      if cancelCountdown <= 0 {
        cancelTimer := false;
        ExecuteCancel();
      }
    }

    /** One second passes on the timer the handle names; with no live handle nothing happens. */
    method Tick()
      requires Valid()
      modifies this, store, shieldManager.store, activityCenter
      ensures Valid() && orphanTimers == old(orphanTimers)
      ensures !old(cancelTimer) ==> CountdownUnchanged() && activeSession == old(activeSession) && EnvironmentUnchanged()
      ensures old(cancelTimer) && old(cancelCountdown) > 1 ==>
        && cancelTimer && isCancelling && cancelCountdown == old(cancelCountdown) - 1
        && activeSession == old(activeSession) && EnvironmentUnchanged()
      ensures old(cancelTimer) && old(cancelCountdown) <= 1 ==>
        !cancelTimer && !isCancelling && cancelCountdown == 0 && SessionEnded()
    {
      if cancelTimer {
        FireTimer();
      }
    }

    /** One second passes on an orphaned timer: it runs the same closure, and nothing can stop it. */
    method StrayTick()
      requires Valid()
      modifies this, store, shieldManager.store, activityCenter
      ensures Valid() && orphanTimers == old(orphanTimers)
      ensures old(orphanTimers) == 0 ==> CountdownUnchanged() && activeSession == old(activeSession) && EnvironmentUnchanged()
      ensures old(orphanTimers) > 0 && old(cancelCountdown) > 1 ==>
        && cancelCountdown == old(cancelCountdown) - 1 && isCancelling == old(isCancelling) && cancelTimer == old(cancelTimer)
        && activeSession == old(activeSession) && EnvironmentUnchanged()
      ensures old(orphanTimers) > 0 && old(cancelCountdown) <= 1 ==>
        cancelCountdown == old(cancelCountdown) - 1 && !cancelTimer && !isCancelling && SessionEnded()
    {
      if orphanTimers > 0 {
        FireTimer();
      }
    }

    /** `abortCancel()`: back to the countdown's start, handle invalidated; the session, end time included, is kept. */
    method AbortCancel()
      requires Valid()
      modifies this
      ensures Valid() && activeSession == old(activeSession) && orphanTimers == old(orphanTimers)
      ensures !isCancelling && cancelCountdown == CancelDelay && !cancelTimer
    {
      isCancelling := false;
      cancelCountdown := CancelDelay;
      cancelTimer := false;
    }

    /** `emergencyReset()`: from any state, end everything; the countdown value is left as it was. */
    method EmergencyReset()
      requires Valid()
      modifies this, store, shieldManager.store, activityCenter
      ensures Valid() && SessionEnded()
      ensures !cancelTimer && !isCancelling
      ensures cancelCountdown == old(cancelCountdown) && orphanTimers == old(orphanTimers)
    {
      cancelTimer := false;
      shieldManager.DeactivateShield();
      StopMonitoring();
      store.ClearSession();
      activeSession := None;
      isCancelling := false;
    }

    /** `checkExpiry()` at `now`: ends the session once its end time has come, otherwise changes nothing. */
    method CheckExpiry(now: int)
      requires Valid()
      modifies this, store, shieldManager.store, activityCenter
      ensures Valid() && CountdownUnchanged()
      ensures old(activeSession).Some? && IsExpired(old(activeSession).value, now) ==> SessionEnded()
      ensures !(old(activeSession).Some? && IsExpired(old(activeSession).value, now)) ==>
        activeSession == old(activeSession) && EnvironmentUnchanged()
    {
      if activeSession.Some? && IsExpired(activeSession.value, now) {
        EndSession();
      }
    }

    method ExecuteCancel()
      requires cancelCountdown <= CancelDelay
      modifies this, store, shieldManager.store, activityCenter
      ensures Valid() && !isCancelling && !cancelTimer && SessionEnded()
      ensures cancelCountdown == old(cancelCountdown) && orphanTimers == old(orphanTimers)
    {
      isCancelling := false;
      cancelTimer := false;
      EndSession();
    }

    /** The end-of-session path; it neither stops the countdown timer nor clears `isCancelling`. */
    method EndSession()
      modifies this, store, shieldManager.store, activityCenter
      ensures SessionEnded() && CountdownUnchanged()
    {
      shieldManager.DeactivateShield();
      StopMonitoring();
      store.ClearSession();
      activeSession := None;
    }

    /**
     * Cold-start reconciliation at `now`: a stored session that has expired
     * is ended; one that has not is adopted without touching the shield.
     */
    method LoadExistingSession(now: int)
      requires Valid()
      modifies this, store, shieldManager.store, activityCenter
      ensures Valid() && CountdownUnchanged()
      ensures old(store.LoadSession()).None? ==> activeSession == old(activeSession) && EnvironmentUnchanged()
      ensures old(store.LoadSession()).Some? && IsExpired(old(store.LoadSession()).value, now) ==> SessionEnded()
      ensures old(store.LoadSession()).Some? && !IsExpired(old(store.LoadSession()).value, now) ==>
        activeSession == old(store.LoadSession()) && EnvironmentUnchanged()
    {
      var stored := store.LoadSession();
      if stored.None? {
        return;
      }
      if IsExpired(stored.value, now) {
        EndSession();
      } else {
        activeSession := stored;
      }
    }

    /** Registers the one-shot "sleepSession" interval; a refusal is swallowed. */
    method StartMonitoring(endDate: int, now: int, accepted: bool)
      modifies activityCenter
      ensures activityCenter.activities ==
        if accepted then old(activityCenter.activities)[SleepSessionActivity := SessionInterval(now, endDate)]
        else old(activityCenter.activities)
    {
      var failed := activityCenter.StartMonitoring(SleepSessionActivity, SessionInterval(now, endDate), accepted);
    }

    /** Unregisters "sleepSession" only. */
    method StopMonitoring()
      modifies activityCenter
      ensures activityCenter.activities == old(activityCenter.activities) - {SleepSessionActivity}
    {
      activityCenter.StopMonitoring({SleepSessionActivity});
    }
  }
}
