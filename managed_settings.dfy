/**
 * The device's enforcement surface, reduced to the four shield settings the
 * core writes.  `ManagedSettingsStore()` names the one default store, so the
 * app and its monitor extension act on the same record.
 */
module ManagedSettings {
  import opened Wrappers
  import opened FamilyControls

  /** `ShieldSettings.ActivityCategoryPolicy<Application>` in the two forms the core uses. */
  datatype ApplicationCategoryPolicy =
    | AllApplications(except: set<ApplicationToken>)
    | SpecificCategories(categories: set<CategoryToken>)

  /** `ShieldSettings.ActivityCategoryPolicy<WebDomain>`; the core only uses `.all()`. */
  datatype WebDomainCategoryPolicy = AllWebDomains(exceptDomains: set<WebDomainToken>)

  /** `store.shield`; nil (None) means the setting is not applied. */
  datatype ShieldSettings = ShieldSettings(
    applications: Option<set<ApplicationToken>>,
    applicationCategories: Option<ApplicationCategoryPolicy>,
    webDomains: Option<set<WebDomainToken>>,
    webDomainCategories: Option<WebDomainCategoryPolicy>)

  /** Every shield setting unset. */
  const Cleared: ShieldSettings := ShieldSettings(None, None, None, None)

  /**
   * Whether `app` is shielded under `s`, given the category each application
   * belongs to: it is listed by itself, or a category policy covers it.
   */
  predicate ApplicationShielded(s: ShieldSettings, app: ApplicationToken, categoryOf: ApplicationToken -> CategoryToken) {
    || (s.applications.Some? && app in s.applications.value)
    || (s.applicationCategories.Some? &&
        match s.applicationCategories.value
        case AllApplications(except) => app !in except
        case SpecificCategories(categories) => categoryOf(app) in categories)
  }

  /** Whether the web domain `domain` is shielded under `s`. */
  predicate WebDomainShielded(s: ShieldSettings, domain: WebDomainToken) {
    || (s.webDomains.Some? && domain in s.webDomains.value)
    || (s.webDomainCategories.Some? && domain !in s.webDomainCategories.value.exceptDomains)
  }

  /** Nothing is shielded once every setting is cleared. */
  lemma ClearedShieldsNothing(app: ApplicationToken, domain: WebDomainToken, categoryOf: ApplicationToken -> CategoryToken)
    ensures !ApplicationShielded(Cleared, app, categoryOf) && !WebDomainShielded(Cleared, domain)
  {
  }

  class ManagedSettingsStore {
    var shield: ShieldSettings

    constructor (initial: ShieldSettings)
      ensures shield == initial
    {
      shield := initial;
    }

    /** `clearAllSettings()`. */
    method ClearAllSettings()
      modifies this
      ensures shield == Cleared
    {
      shield := Cleared;
    }
  }
}
