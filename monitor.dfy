/**
 * The background reactor (`SleepInducerMonitor`): the extension the system
 * wakes at the start and end of any registered interval.  It sees only the
 * shared store and the default shield settings, and it treats every interval
 * name alike.
 */
module Monitor {
  import opened Wrappers
  import opened FamilyControls
  import opened ManagedSettings
  import opened DeviceActivity
  import opened Shields
  import opened SharedStore

  /** The shield settings `intervalDidStart` leaves behind when it starts from `s` with the stored selection. */
  function IntervalStartShield(s: ShieldSettings, selection: ActivitySelection): (r: ShieldSettings)
    ensures r.applications == if selection.applicationTokens == {} then None else Some(selection.applicationTokens)
    ensures r.applicationCategories ==
      if selection.categoryTokens == {} then None else Some(SpecificCategories(selection.categoryTokens))
    ensures r.webDomains == if selection.webDomainTokens == {} then None else Some(selection.webDomainTokens)
    ensures r.webDomainCategories == s.webDomainCategories
  {
    s.(applications := if selection.applicationTokens == {} then None else Some(selection.applicationTokens),
       applicationCategories :=
         if selection.categoryTokens == {} then None else Some(SpecificCategories(selection.categoryTokens)),
       webDomains := if selection.webDomainTokens == {} then None else Some(selection.webDomainTokens))
  }

  class SleepInducerMonitor {
    const store: ManagedSettingsStore
    const sessionStore: SharedSessionStore

    constructor (store: ManagedSettingsStore, sessionStore: SharedSessionStore)
      ensures this.store == store && this.sessionStore == sessionStore
    {
      this.store := store;
      this.sessionStore := sessionStore;
    }

    /** Shields the selected applications, categories and web domains themselves; the store is only read. */
    method IntervalDidStart(activity: ActivityName)
      modifies store
      ensures store.shield == IntervalStartShield(old(store.shield), sessionStore.LoadAllowedApps())
    {
      var selection := sessionStore.LoadAllowedApps();
      store.shield := store.shield.(applications :=
        if selection.applicationTokens == {} then None else Some(selection.applicationTokens));
      store.shield := store.shield.(applicationCategories :=
        if selection.categoryTokens == {} then None else Some(SpecificCategories(selection.categoryTokens)));
      store.shield := store.shield.(webDomains :=
        if selection.webDomainTokens == {} then None else Some(selection.webDomainTokens));
    }

    /** Clears every shield and removes the session record; the other three records are kept. */
    method IntervalDidEnd(activity: ActivityName)
      modifies store, sessionStore
      ensures store.shield == Cleared
      ensures sessionStore.defaults == old(sessionStore.defaults) - {ActiveSessionKey}
      ensures sessionStore.Loaded() == old(sessionStore.Loaded()).(session := None)
    {
      store.ClearAllSettings();
      sessionStore.ClearSession();
    }
  }

  /**
   * Whatever the shield held before, interval start shields an application
   * exactly when it, or its category, is in the selection.
   */
  lemma IntervalStartShieldsSelection(s: ShieldSettings, selection: ActivitySelection,
                                      app: ApplicationToken, categoryOf: ApplicationToken -> CategoryToken)
    ensures ApplicationShielded(IntervalStartShield(s, selection), app, categoryOf) <==>
      app in selection.applicationTokens || categoryOf(app) in selection.categoryTokens
  {
  }

  /**
   * The reactor and the gate disagree on every allowed application: interval
   * start shields it, while the gate, activating over cleared settings,
   * exempts it.
   */
  lemma ReactorShieldsWhatGateAllows(selection: ActivitySelection, app: ApplicationToken,
                                     categoryOf: ApplicationToken -> CategoryToken)
    requires app in selection.applicationTokens
    ensures ApplicationShielded(IntervalStartShield(Cleared, selection), app, categoryOf)
    ensures !ApplicationShielded(Activated(Cleared, selection), app, categoryOf)
  {
    ActivateAllowsExactlySelected(Cleared, selection, app, categoryOf);
  }

  /** From cleared settings the two never produce the same shield: only the gate sets the web domain categories. */
  lemma ReactorNeverMatchesGate(selection: ActivitySelection)
    ensures IntervalStartShield(Cleared, selection) != Activated(Cleared, selection)
  {
    assert IntervalStartShield(Cleared, selection).webDomainCategories == None;
  }

  /** An empty selection makes interval start shield nothing at all. */
  lemma EmptySelectionShieldsNothing(s: ShieldSettings, app: ApplicationToken, categoryOf: ApplicationToken -> CategoryToken)
    ensures !ApplicationShielded(IntervalStartShield(s, EmptySelection), app, categoryOf)
  {
  }
}
