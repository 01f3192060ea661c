# Verified model of the inbox-desktop view governor

The desktop client shows one window. The window holds one of three views: mail, calendar or account. This project models the logic that decides which view is shown, what each view loads, and what happens to each navigation and each new-window request. It also models the certificate pin verdict and the text truncation helper. Everything is proved with Dafny.

Modules:

- `UrlTests`: the URL classifier (`isHostAllowed`, `isMail`, `getLocalID`, `isSameURL`, …). It is a record of total functions passed as a parameter, so every property holds for any classifier.
- `Urls`: the small part of the WHATWG `URL` object that `updateLocalID` uses. The parser reads `scheme://host path ?query #fragment`. The `pathname` setter percent-encodes `?` and `#`. The serialiser is proved to round-trip (`ParseHref`).
- `ViewRegistry`: the module state of `viewManagement.ts` as a value. It holds:
  - `browserViewMap`, with an absent key standing for `undefined`;
  - `loadingViewMap` and `currentViewID`;
  - the main window (title, bounds, attached view);
  - the log of commands issued to the rendering host (stop, load, attach).

  Every operation is a function on this value. The lemmas state what the operations promise.
- `ViewManagement`: the class `ViewManager`. Its fields are that state, and its methods update them in place. Each method that stands for an operation of the program is proved to move `old(Model())` to the value the matching `ViewRegistry` function gives. `GetViewURL` and `GetWebContentsViewName` only read the state and state their results directly. `HostStartsLoading` and `HostStopsLoading` are events of the rendering host, not of the program, and state their new state directly. `ResetHiddenViews`, `ReloadHiddenViewsForced` and `GetWebContentsViewName` keep the source's loop over the views in map order (mail, calendar, account). `ReloadHiddenViewsForced` runs the corrected reload loop, in which each hidden view re-requests its URL; the program's own `reloadHiddenViews` is modelled only as the function `ViewRegistry.ReloadHiddenViewsAsWritten`.
- `WebContents`: the `did-navigate-in-page`, `will-navigate` and window-open handlers as decision functions returning an outcome. `FollowEffect` and `FollowNavigation` feed that outcome into `showView`.
- `KeyPinning`: `checkKeys` and its verdicts 0, -2 and -3.
- `Helpers`: `smartTruncateText`, with JavaScript `slice` and `lastIndexOf` semantics.

A load is one atomic step: it is issued and has completed when the step ends. The host reports a main-frame load in flight (`isLoadingMainFrame`) only when the page starts navigating by itself. The methods `HostStartsLoading` and `HostStopsLoading` model those events. In `internalShowView`, the second `loadURL` is started but not awaited before `setBrowserView`. It suspends at its first `await` before issuing anything, so the model issues its stop and load after the attach, in the order the program produces them.

`updateLocalID` replaces the whole path of the target with `/u/<id>`. It does not prefix the existing path. For example, `https://mail.proton.me/u/0/inbox` becomes `https://mail.proton.me/u/3` when the current view is at the local id 3. The model follows the code, and `RewriteReplacesPath` states it.

## Model

| member | source | states |
|---|---|---|
| Urls.ParseHref | src/utils/view/viewManagement.ts:141-145 | The serialisation of every well-formed URL parses back to the same URL, so `new URL(url.toString())` recovers the URL `updateLocalID` built |
| Urls.Parse | src/utils/view/viewManagement.ts:141 | A successful parse yields a well-formed URL: a non-empty scheme, a host, a path starting with `/`, and an optional query and fragment |
| Urls.EncodePath | src/utils/view/viewManagement.ts:142 | The path the `pathname` setter stores has no `?` or `#`, keeps its leading `/`, and is the given path when that already has neither |
| Urls.Href | src/utils/view/viewManagement.ts:145 | `url.toString()` starts with the scheme and `://`, and its length is that of the scheme, separator, host and path plus the query and the fragment with their markers |
| Urls.WithPath | src/utils/view/viewManagement.ts:142 | Setting the path keeps the scheme, host, query and fragment, stores a path without `?` or `#` as given, and keeps a well-formed URL well-formed for a path starting with `/` |
| Urls.Scan | src/utils/view/viewManagement.ts:141 | The index the parser splits at is the first stop character, and none comes before it |
| ViewRegistry.AdjustBoundsForWindows | src/utils/view/viewManagement.ts:110-123 | Windows takes 16 off the width and 32 off the height, Linux takes 24 off the height, other platforms keep the bounds, and x and y are always kept |
| ViewRegistry.ViewURL | src/utils/view/viewManagement.ts:236-239 | Gives the view's URL when the view exists, and fails otherwise |
| ViewRegistry.UpdateLocalID | src/utils/view/viewManagement.ts:125-146 | The target is returned unchanged when its host is not allowed, when it is an account switch, when the current local id is null, or when it equals the target's. Reading the URL of a missing current view throws. An unparsable target throws. Otherwise the result parses to the target with its path set to `/u/<current id>` |
| ViewRegistry.RewriteReplacesPath | src/utils/view/viewManagement.ts:141-145 | For an id without `?` or `#`, a rewritten URL has path exactly `/u/<id>` and keeps the scheme, host, query and fragment of the target |
| ViewRegistry.Issue | src/utils/view/viewManagement.ts:207-229 | A load stops the in-flight main-frame load first, if there is one. It then loads the URL, replaces the view's pending-load entry and leaves every other view as it was. Validity is kept |
| ViewRegistry.LoadURL | src/utils/view/viewManagement.ts:197-234 | Succeeds exactly when the view exists; a missing view throws and changes nothing. A URL `isSameURL` to the view's own changes nothing. Any other URL issues the load |
| ViewRegistry.LoadTouchesOnlyItsView | src/utils/view/viewManagement.ts:197-234 | A load keeps every other view, its pending load, the current view and the window |
| ViewRegistry.LoadSupersedes | src/utils/view/viewManagement.ts:207-211 | After a load the view is at the URL with no load in flight. Exactly one or two commands are issued, the stop first when one was in flight, the load last |
| ViewRegistry.LoadIdempotent | src/utils/view/viewManagement.ts:200-203 | Loading the same URL again changes nothing and issues nothing, for a reflexive `isSameURL` |
| ViewRegistry.Attached | src/utils/view/viewManagement.ts:173-177 | Attaching a view records it as the window's view and issues the attach command; with the view current, validity follows |
| ViewRegistry.Fitted | src/utils/view/viewManagement.ts:157-158 | The view gets the window's adjusted width and height at the origin, and nothing else changes |
| ViewRegistry.BlankAttachLoad | src/utils/view/viewManagement.ts:171-174 | The loading branch (blank-page load, attach, then the URL's load, which resumes only after the attach) keeps the current id, ends with the view attached, keeps every other view and the view's bounds, extends the log with an `Attach` in its new part, and keeps validity for the current view; the order of the commands is stated by `ViewRegistry.SwitchToLoads` |
| ViewRegistry.SwitchTo | src/utils/view/viewManagement.ts:166-178 | Switching makes the view current, sets its title, attaches it and keeps every other view |
| ViewRegistry.SwitchToLoads | src/utils/view/viewManagement.ts:169-174 | Switching with a new URL, when neither the view's URL nor the target is `isSameURL` to the blank page, issues the blank-page load (after a stop if one was in flight), then the attach, then the URL's load, and ends at the URL |
| ViewRegistry.SwitchFromBlankSkipsBlankLoad | src/utils/view/viewManagement.ts:169-174 | Switching with a new URL into a view that `isSameURL` finds at the blank page, as `resetHiddenViews` leaves it, issues only the attach and then the URL's load (after a stop if one was in flight), and ends at the URL |
| ViewRegistry.TitleOf | src/utils/view/viewManagement.ts:181-190 | Mail is titled "Proton Mail", calendar "Proton Calendar" and account "Proton", and each title belongs to exactly one view |
| ViewRegistry.Resolve | src/utils/view/viewManagement.ts:149 | An empty target is kept as it is, and so is a target on a host that is not allowed or an account switch. Resolving fails only for an allowed non-switch target, either because it does not parse or because no view is current |
| ViewRegistry.ShowResolved | src/utils/view/viewManagement.ts:151-153 | With no main window `showView` throws; a thrown error changes nothing |
| ViewRegistry.ShowView | src/utils/view/viewManagement.ts:148-195 | A failing `showView` changes nothing, and with no main window it always fails |
| ViewRegistry.ShowViewEffect | src/utils/view/viewManagement.ts:148-195 | A successful `showView` keeps the registry valid and makes the view current and attached. It keeps the window bounds, sets the title (unless the view was current), gives the view the adjusted bounds, and keeps every other view |
| ViewRegistry.ShowCurrentOnlyLoads | src/utils/view/viewManagement.ts:160-164 | `showView` to the current view only performs the load: current view and window stay |
| ViewRegistry.ShowOtherLoadsBlankFirst | src/utils/view/viewManagement.ts:169-174 | `showView` to another view with a new URL, when neither the view's URL nor the target is `isSameURL` to the blank page, issues the blank-page load, then the attach, then the URL's load, and ends at the URL |
| ViewRegistry.ShowOtherWithoutLoad | src/utils/view/viewManagement.ts:175-178 | `showView` to another view with no URL, or the URL it already shows, only attaches it |
| ViewRegistry.Startup | src/utils/view/viewManagement.ts:36-95 | Start-up yields a valid registry with the window and three views and no current view. It loads the mail URL into mail and the calendar URL into calendar, each unless `isSameURL` finds it the same as the empty URL of a new view. It issues exactly those loads, in that order, and nothing for the account view |
| ViewRegistry.ResetHiddenViews | src/utils/view/viewManagement.ts:252-261 | `resetHiddenViews` keeps the current view, the window and the set of views; its effect on each view is in `ResetHiddenViewsEffect` |
| ViewRegistry.ResetOver | src/utils/view/viewManagement.ts:252-261 | Resetting keeps the current view, the window and the set of views |
| ViewRegistry.ResetOverCommands | src/utils/view/viewManagement.ts:252-261 | Resetting keeps validity and only appends stops and blank-page loads in views other than the current one |
| ViewRegistry.ResetOverView | src/utils/view/viewManagement.ts:254-258 | Each listed hidden view ends at the blank page with no load in flight, unless it was already there. The current view and unlisted views are untouched |
| ViewRegistry.ResetHiddenViewsEffect | src/utils/view/viewManagement.ts:252-261 | `resetHiddenViews` takes every hidden view to the blank page and leaves the current view, the current id and the window untouched |
| ViewRegistry.ReloadHiddenViewsAsWritten | src/utils/view/viewManagement.ts:241-250 | `reloadHiddenViews` as written keeps the current view, the window and the set of views |
| ViewRegistry.ReloadOverAsWritten | src/utils/view/viewManagement.ts:243-247 | Each step of the loop as written keeps the current view, the window and the set of views |
| ViewRegistry.ReloadOverAsWrittenIsNoOp | src/utils/view/viewManagement.ts:243-247 | Every prefix of the loop as written changes nothing when `isSameURL` is reflexive on the views' URLs |
| ViewRegistry.ReloadHiddenAsWrittenIsNoOp | src/utils/view/viewManagement.ts:241-250 | As written, `reloadHiddenViews` changes nothing and issues nothing whenever `isSameURL` is reflexive |
| ViewRegistry.ReloadHiddenViews | src/utils/view/viewManagement.ts:241-250 | The corrected `reloadHiddenViews` keeps the current view, the window and the set of views; its effect is in `ReloadHiddenViewsEffect` |
| ViewRegistry.ReloadOver | src/utils/view/viewManagement.ts:241-250 | Reloading keeps the current view, the window and the set of views |
| ViewRegistry.ReloadOverView | src/utils/view/viewManagement.ts:243-247 | Reloading keeps every view's URL, bounds and contents; a listed hidden view ends with no load in flight |
| ViewRegistry.ReloadOverCommands | src/utils/view/viewManagement.ts:241-250 | Reloading keeps validity, issues a load of its own URL for each listed hidden view, and issues nothing else |
| ViewRegistry.ReloadHiddenViewsEffect | src/utils/view/viewManagement.ts:241-250 | The corrected `reloadHiddenViews` re-requests each hidden view's own URL and nothing else. No URL changes, and the current view and window are untouched |
| ViewManagement.ViewManager.constructor | src/utils/view/viewManagement.ts:20-34 | The module starts with no window, no views and no current view |
| ViewManagement.ViewManager.Startup | src/utils/view/viewManagement.ts:36-95 | Creates the window and views, then loads mail and calendar, as `ViewRegistry.Startup` |
| ViewManagement.ViewManager.GetViewURL | src/utils/view/viewManagement.ts:236-239 | Returns the view's URL, or the TypeError of an undefined view |
| ViewManagement.ViewManager.Issue | src/utils/view/viewManagement.ts:207-229 | Updates the state as `ViewRegistry.Issue` |
| ViewManagement.ViewManager.LoadURL | src/utils/view/viewManagement.ts:197-234 | Updates the state and returns as `ViewRegistry.LoadURL` |
| ViewManagement.ViewManager.Fit | src/utils/view/viewManagement.ts:157-158 | Updates the view's bounds as `ViewRegistry.Fitted` |
| ViewManagement.ViewManager.Attach | src/utils/view/viewManagement.ts:173-177 | Updates the state as `ViewRegistry.Attached` |
| ViewManagement.ViewManager.SwitchTo | src/utils/view/viewManagement.ts:166-178 | Updates the state as `ViewRegistry.SwitchTo` |
| ViewManagement.ViewManager.ShowResolved | src/utils/view/viewManagement.ts:151-164 | Updates the state and returns as `ViewRegistry.ShowResolved` |
| ViewManagement.ViewManager.ShowView | src/utils/view/viewManagement.ts:148-195 | Updates the state and returns as `ViewRegistry.ShowView`, and keeps validity |
| ViewManagement.ViewManager.ResetHiddenViews | src/utils/view/viewManagement.ts:252-261 | The loop over the views updates the state as `ViewRegistry.ResetHiddenViews`, and keeps validity |
| ViewManagement.ViewManager.ReloadHiddenViewsForced | src/utils/view/viewManagement.ts:241-250 | The loop over the views updates the state as the corrected `ViewRegistry.ReloadHiddenViews`, and keeps validity |
| ViewManagement.ViewManager.GetWebContentsViewName | src/utils/view/viewManagement.ts:299-307 | Returns the first view in map order whose contents is the given one, and null exactly when no view has it |
| ViewManagement.ViewManager.HostStartsLoading | src/utils/view/viewManagement.ts:207 | The host's own navigation sets the view's main-frame loading flag and nothing else |
| ViewManagement.ViewManager.HostStopsLoading | src/utils/view/viewManagement.ts:207 | The end of the host's own navigation sets the view's URL and clears its loading flag, and nothing else |
| WebContents.DidNavigateInPage | src/utils/view/webContents.ts:39-54 | In-page navigation is prevented exactly when the host is not allowed. Otherwise `resetBadge` is called exactly for an account switch |
| WebContents.InPageIgnoresUpgrade | src/utils/view/webContents.ts:50-53 | The upgrade-modal branch has no effect on the outcome |
| WebContents.RedirectTarget | src/utils/view/webContents.ts:68-81 | The redirect chain picks account (not authorize), then calendar, then mail, each only when it is not the current view |
| WebContents.WillNavigate | src/utils/view/webContents.ts:58-85 | The outcome is prevented exactly for a disallowed host with no overlay open. It throws exactly when no view is current past that test. It redirects exactly when the navigating contents is the current view and the chain picks a view, and the redirect goes to that view with the same URL |
| WebContents.HiddenNeverRedirects | src/utils/view/webContents.ts:65-67 | Navigation in contents that are not the current view never redirects |
| WebContents.NavigateOverlaysIrrelevantWhenAllowed | src/utils/view/webContents.ts:61-63 | For an allowed host the overlay flags do not change the outcome |
| WebContents.RedirectSettles | src/utils/view/webContents.ts:67-81 | With disjoint kinds of URL, a redirected navigation proceeds when seen again in the view it was sent to |
| WebContents.RedirectCanBounce | src/utils/view/webContents.ts:67-81 | A URL that is both an account and a calendar URL redirects mail to account, account to calendar, and calendar back to account |
| WebContents.WindowOpen | src/utils/view/webContents.ts:87-133 | A calendar link is shown in calendar and denied; otherwise a mail link is shown in mail and denied. An account link is denied and opened externally when lite or upsell, else shown in account. A window is allowed exactly for another URL on an allowed host or with an overlay open. Every denial has an effect, and every effect carries the URL |
| WebContents.UntrustedWindowOpensExternally | src/utils/view/webContents.ts:120-132 | A link that is not a calendar, mail or account link, to a disallowed host, with no overlay open, is denied and opened in the external browser |
| WebContents.WindowOverlaysIrrelevantWhenAllowed | src/utils/view/webContents.ts:115-118 | For an allowed host the overlay flags do not change the outcome |
| WebContents.FollowEffect | src/utils/view/webContents.ts:90-113 | A window-open effect other than showing a view changes nothing. `showView` keeps a valid registry valid, and on success leaves the shown view current and attached |
| WebContents.FollowNavigation | src/utils/view/webContents.ts:67-81 | A navigation outcome other than a redirect changes nothing. The redirect's `showView` keeps a valid registry valid; on success the target is current and attached, and titled when it was not current |
| WebContents.ShowViewEffectWhenValid | src/utils/view/viewManagement.ts:148-195 | From a valid registry `showView` keeps validity, and on success makes the view current and attached, titled when it was not current |
| WebContents.CalendarLinkShowsCalendar | src/utils/view/webContents.ts:90-94 | Following a calendar link keeps the registry valid and, when `showView` succeeds, leaves calendar current and attached |
| WebContents.RedirectSwitchesView | src/utils/view/webContents.ts:67-81 | Following a redirect keeps the registry valid and, when `showView` succeeds, makes the picked view (another one) current and titled |
| KeyPinning.CheckKeys | src/utils/keyPinning.ts:9-30 | The verdict is one of 0, -2 and -3. It is -3 exactly when the host is not allowed. It is 0 exactly for an allowed host that is unpackaged, not production, or has a pinned key hash. It is -2 exactly for an allowed host in a packaged production build whose hash is not pinned |
| KeyPinning.MorePinsAcceptMore | src/utils/keyPinning.ts:22-24 | Pinning more hashes never turns an accepted certificate into a rejected one |
| Helpers.LastIndexOf | src/utils/helpers.ts:67 | The result is -1 or an index holding the character, and no later index holds it |
| Helpers.SliceEnd | src/utils/helpers.ts:66 | The end `slice` uses: counted from the back when negative, clamped to the text |
| Helpers.SmartTruncateText | src/utils/helpers.ts:61-80 | A text within `maxLength` is returned unchanged. A longer text is cut at the cut index and gets `...` unless the kept part ends with `.`. A truncated result always ends with `.` and, for a non-negative `maxLength`, is at most `maxLength + 3` long |
| Helpers.CutIndex | src/utils/helpers.ts:66-73 | The cut lies within the first `maxLength` characters. Either it is at a space with no space after it among them, or it is at their end and none of them is a space |
| Helpers.TruncateAtLastSpace | src/utils/helpers.ts:66-73 | With a space among the first `maxLength` characters, the cut is just before the last such space |
| Helpers.TruncateWithoutSpace | src/utils/helpers.ts:69-70 | Without a space among the first `maxLength` characters, the cut is after exactly `maxLength` characters |

## Left out

- The 30-second load timeout, the `did-stop-loading` listener and late completions. A load is one atomic, always completing step. So the awaits in `getViewURL` never see a pending load, and the concurrent interleavings of `showView` calls that are not awaited (from `will-navigate`, window-open and `showEndOfTrial`) are not modelled.
- `showEndOfTrial`: it fires `showView` and `resetHiddenViews` without awaiting them, so its behaviour depends on that concurrency.
- Creation of the Electron window and views, `setAutoResize`, the Alt-key menu toggle, context menus, registering the certificate callback, and the start-up delay. `Startup` models only the state they produce and the two loads.
- ViewManagement.ViewManager.Startup: it requires that no window exists yet; what a second start-up would do to the current view is not modelled.
- The spell-check settings and the plain getters (`getMailView`, `getMainWindow`, `getCurrentView`, …). They are persistence and pass-throughs; the handlers' use of `getCurrentView()` is taken as the current view id.
- The bodies of the URL predicates. `src/utils/urls/urlTests` is not part of this model.
- The list `CERT_PROTON_ME` is a parameter, because the constants file is not part of this model. The SHA-256 digest of the certificate's SPKI export is a parameter too.
- WHATWG URL parsing beyond `scheme://authority path ?query #fragment`: no normalisation, no case folding, no special-scheme rules, and no percent-encoding other than `?` and `#` in a new path. Other shapes count as parse failures. In the other direction, the characters of the scheme are not validated and leading or trailing spaces are not stripped, so `Parse` accepts some strings that `new URL` rejects (`"ht tp://h"`, a scheme starting with a digit) or reads differently (`" https://h"`).
- Redirects by the server: after a load, the view is taken to report the requested URL.
- `showView` to the current view with no URL calls `loadURL(viewID, "")`. Unless `isSameURL` finds the view's URL the same as `""`, the model then issues `Load(v, "")` and the view reports `""`, by the rule above that a view reports the URL it was asked to load. What the rendering host really does with an empty URL is not modelled, so that end state is a consequence of the rule, not the program's observed behaviour.
- String lengths are counted in characters, not UTF-16 code units.
- `maxLength` is an integer; fractional `maxLength` values of JavaScript numbers are not modelled.
- Logging, `resetBadge`'s own work, `shell.openExternal` and `preventDefault` are not modelled. The handlers return them as outcome values.
- The menus, window options, `idStore`, the preload bridge and the IPC constants. The IPC constants are used only as the three views.
- The `default` branch of `showView`'s title switch is left out: the view type has exactly three values.

## Findings

| source | as written | input that shows it | evidently intended | confidence | as-written member | corrected member |
|---|---|---|---|---|---|---|
| src/utils/view/viewManagement.ts:241-250 | `reloadHiddenViews` calls `loadURL(viewID, getViewURL(viewID))`, and `loadURL` returns early when the view is already at the URL, so no hidden view is ever reloaded | any state with a hidden view at `https://mail.proton.me/u/0/inbox` and an `isSameURL` that finds a URL the same as itself: nothing is loaded | each hidden view re-requests its own URL | medium, not executed | ViewRegistry.ReloadHiddenAsWrittenIsNoOp | ViewRegistry.ReloadHiddenViewsEffect |
