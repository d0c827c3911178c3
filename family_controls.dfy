/**
 * The user's allow-list selection (`FamilyActivitySelection`): opaque tokens
 * for applications, app categories and web domains.
 */
module FamilyControls {

  datatype ApplicationToken = ApplicationToken(handle: nat)
  datatype CategoryToken = CategoryToken(handle: nat)
  datatype WebDomainToken = WebDomainToken(handle: nat)

  datatype ActivitySelection = ActivitySelection(
    applicationTokens: set<ApplicationToken>,
    categoryTokens: set<CategoryToken>,
    webDomainTokens: set<WebDomainToken>)

  /** `FamilyActivitySelection()`: nothing selected. */
  const EmptySelection: ActivitySelection := ActivitySelection({}, {}, {})
}
