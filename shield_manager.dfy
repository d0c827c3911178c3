/**
 * The app's enforcement gate (`ShieldManager`): turns the allow-list into
 * shield settings on the default managed-settings store, and clears them.
 */
module Shields {
  import opened Wrappers
  import opened FamilyControls
  import opened ManagedSettings

  /** The shield settings `activateShield(allowing: selection)` leaves behind when it starts from `s`. */
  function Activated(s: ShieldSettings, selection: ActivitySelection): (r: ShieldSettings)
    ensures r.applicationCategories == Some(AllApplications(selection.applicationTokens))
    ensures r.webDomainCategories == Some(AllWebDomains({}))
    ensures r.applications == s.applications && r.webDomains == s.webDomains
  {
    s.(applicationCategories := Some(AllApplications(selection.applicationTokens)),
       webDomainCategories := Some(AllWebDomains({})))
  }

  class ShieldManager {
    const store: ManagedSettingsStore

    constructor (store: ManagedSettingsStore)
      ensures this.store == store
    {
      this.store := store;
    }

    /** Shields every app category except the selected apps, and every web domain category; nothing is cleared first. */
    method ActivateShield(selection: ActivitySelection)
      modifies store
      ensures store.shield == Activated(old(store.shield), selection)
    {
      var applications := selection.applicationTokens;
      store.shield := store.shield.(applicationCategories := Some(AllApplications(applications)));
      store.shield := store.shield.(webDomainCategories := Some(AllWebDomains({})));
    }

    /** Removes every shield. */
    method DeactivateShield()
      modifies store
      ensures store.shield == Cleared
    {
      store.ClearAllSettings();
    }
  }

  /** Activating twice with the same allow-list is the same as activating once. */
  lemma ActivateIdempotent(s: ShieldSettings, selection: ActivitySelection)
    ensures Activated(Activated(s, selection), selection) == Activated(s, selection)
  {
  }

  /** Only the selected applications matter: selected categories and web domains are ignored. */
  lemma ActivateReadsOnlyApplications(s: ShieldSettings, a: ActivitySelection, b: ActivitySelection)
    requires a.applicationTokens == b.applicationTokens
    ensures Activated(s, a) == Activated(s, b)
  {
  }

  /**
   * With no application-level shield already in place, activation shields
   * exactly the applications that are not on the allow-list, whatever their
   * category.
   */
  lemma ActivateAllowsExactlySelected(s: ShieldSettings, selection: ActivitySelection,
                                      app: ApplicationToken, categoryOf: ApplicationToken -> CategoryToken)
    requires s.applications == None
    ensures ApplicationShielded(Activated(s, selection), app, categoryOf) <==> app !in selection.applicationTokens
  {
  }

  /** Activation shields every web domain, the selected ones included. */
  lemma ActivateShieldsAllWebDomains(s: ShieldSettings, selection: ActivitySelection, domain: WebDomainToken)
    ensures WebDomainShielded(Activated(s, selection), domain)
  {
  }

  /**
   * Because activation does not clear first, an application that an earlier
   * application-level shield lists stays shielded even when it is now allowed.
   */
  lemma ActivateKeepsEarlierApplicationShield(s: ShieldSettings, selection: ActivitySelection,
                                              app: ApplicationToken, categoryOf: ApplicationToken -> CategoryToken)
    requires s.applications.Some? && app in s.applications.value
    ensures ApplicationShielded(Activated(s, selection), app, categoryOf)
  {
  }
}
