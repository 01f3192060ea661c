/**
 * The URL classifier of the program (`src/utils/urls/urlTests`). Its bodies are
 * not part of this model: each test is a field of a record of total functions,
 * so every decision in the model is proved for ANY classifier.
 */
module UrlTests {
  import opened Common

  datatype UrlTests = UrlTests(
    isHostAllowed: string -> bool,
    isMail: string -> bool,
    isCalendar: string -> bool,
    isAccount: string -> bool,
    isAccountSwitch: string -> bool,
    isAccountLite: string -> bool,
    isUpsellURL: string -> bool,
    isUpgradeURL: string -> bool,
    isAccountAuthorize: string -> bool,
    /** The account-local identifier of `/u/<id>` URLs (`null` when absent). */
    getLocalID: string -> Option<string>,
    isSameURL: (string, string) -> bool
  )
}
