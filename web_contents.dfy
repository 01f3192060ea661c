/**
 * The three navigation handlers that `handleWebContents` installs on each web
 * contents (`webContents.ts`), as decision functions. Each returns what the
 * handler does: prevent the event, call `showView`, open the URL in the
 * external browser, or let the navigation go on.
 */
module WebContents {
  import opened Common
  import opened UrlTests
  import opened ViewRegistry

  /** The globals `oauthProcess` and `subscriptionProcess`: an overlay that may browse off the allowed hosts. */
  datatype Overlays = Overlays(oauth: bool, subscription: bool)

  /** Whether an overlay is open. */
  predicate AnyOverlay(o: Overlays)
  {
    o.oauth || o.subscription
  }

  // ---------------------------------------------------------------------------
  // did-navigate-in-page

  /** `did-navigate-in-page`: prevented, or let through (calling `resetBadge` first when `resetBadge` holds). */
  datatype InPageOutcome = PreventInPage | ContinueInPage(resetBadge: bool)

  function DidNavigateInPage(t: UrlTests, url: string): (r: InPageOutcome)
    ensures r == PreventInPage <==> !t.isHostAllowed(url)
    ensures r.ContinueInPage? ==> (r.resetBadge <==> t.isAccountSwitch(url))
  {
    if !t.isHostAllowed(url) then PreventInPage
    else
      var reset := t.isAccountSwitch(url);
      // An account upgrade page returns here; nothing follows the test either way.
      if t.isAccount(url) && t.isUpgradeURL(url) then ContinueInPage(reset)
      else ContinueInPage(reset)
  }

  /** The upgrade test has no effect: the outcome is the same whatever `isAccount` and `isUpgradeURL` say. */
  lemma InPageIgnoresUpgrade(t: UrlTests, t': UrlTests, url: string)
    requires t'.isHostAllowed == t.isHostAllowed && t'.isAccountSwitch == t.isAccountSwitch
    ensures DidNavigateInPage(t, url) == DidNavigateInPage(t', url)
  {
  }

  // ---------------------------------------------------------------------------
  // will-navigate

  /**
   * `will-navigate`: prevented; redirected (`showView(view, url)`, then
   * prevented); let through; or a TypeError, which `getCurrentView()!.webContents`
   * throws while no view is current.
   */
  datatype NavOutcome = Prevent | Redirect(view: ViewID, url: string) | Proceed | Throws

  /**
   * The view the redirect chain of `will-navigate` picks for `url` from the
   * current view `cur`: account (unless an authorize page), then calendar, then mail,
   * each only when it is not the current view.
   */
  function RedirectTarget(t: UrlTests, url: string, cur: ViewID): (r: Option<ViewID>)
    ensures r.Some? ==> r.value != cur
    ensures r == Some(Account) <==> t.isAccount(url) && !t.isAccountAuthorize(url) && cur != Account
    ensures r == Some(Calendar) <==>
              !(t.isAccount(url) && !t.isAccountAuthorize(url) && cur != Account) && t.isCalendar(url) && cur != Calendar
    ensures r == Some(Mail) <==>
              && !(t.isAccount(url) && !t.isAccountAuthorize(url) && cur != Account)
              && !(t.isCalendar(url) && cur != Calendar)
              && t.isMail(url) && cur != Mail
  {
    if t.isAccount(url) && !t.isAccountAuthorize(url) && cur != Account then Some(Account)
    else if t.isCalendar(url) && cur != Calendar then Some(Calendar)
    else if t.isMail(url) && cur != Mail then Some(Mail)
    else None
  }

  /**
   * `will-navigate` for `url` in the web contents of view `source` (`None` when
   * the contents is no view's, such as the main window's), with `current`
   * the current view.
   */
  function WillNavigate(t: UrlTests, o: Overlays, url: string, source: Option<ViewID>, current: Option<ViewID>): (r: NavOutcome)
    ensures r == Prevent <==> !t.isHostAllowed(url) && !AnyOverlay(o)
    ensures r == Throws <==> (t.isHostAllowed(url) || AnyOverlay(o)) && current.None?
    ensures r.Redirect? <==>
              && (t.isHostAllowed(url) || AnyOverlay(o))
              && current.Some? && source == current && RedirectTarget(t, url, current.value).Some?
    ensures r.Redirect? ==> r.url == url && Some(r.view) != current && r.view == RedirectTarget(t, url, current.value).value
  {
    if !t.isHostAllowed(url) && !AnyOverlay(o) then Prevent
    else if current.None? then Throws
    else if source != current then Proceed
    else
      match RedirectTarget(t, url, current.value)
      case Some(v) => Redirect(v, url)
      case None => Proceed
  }

  /** Only the visible contents redirect: a hidden view's navigation (or one outside the views) is never turned into `showView`. */
  lemma HiddenNeverRedirects(t: UrlTests, o: Overlays, url: string, source: Option<ViewID>, current: Option<ViewID>)
    requires source != current
    ensures WillNavigate(t, o, url, source, current) in {Prevent, Proceed, Throws}
  {
  }

  /** The overlay flags matter only for hosts that are not allowed. */
  lemma NavigateOverlaysIrrelevantWhenAllowed(t: UrlTests, o: Overlays, o': Overlays, url: string, source: Option<ViewID>, current: Option<ViewID>)
    requires t.isHostAllowed(url)
    ensures WillNavigate(t, o, url, source, current) == WillNavigate(t, o', url, source, current)
  {
  }

  /**
   * When the three kinds of URL are disjoint, a redirected navigation, seen
   * again in the view it was redirected to, goes through: redirects do not bounce.
   */
  lemma RedirectSettles(t: UrlTests, o: Overlays, url: string, current: ViewID)
    requires !(t.isAccount(url) && t.isCalendar(url)) && !(t.isAccount(url) && t.isMail(url)) && !(t.isCalendar(url) && t.isMail(url))
    requires WillNavigate(t, o, url, Some(current), Some(current)).Redirect?
    ensures var v := WillNavigate(t, o, url, Some(current), Some(current)).view;
            WillNavigate(t, o, url, Some(v), Some(v)) == Proceed
  {
  }

  /**
   * With overlapping kinds the chain can bounce: a URL that is both an account
   * and a calendar URL redirects mail to account, account to calendar, and
   * calendar back to account.
   */
  lemma RedirectCanBounce(t: UrlTests, o: Overlays, url: string)
    requires t.isHostAllowed(url) && t.isAccount(url) && !t.isAccountAuthorize(url) && t.isCalendar(url)
    ensures WillNavigate(t, o, url, Some(Mail), Some(Mail)) == Redirect(Account, url)
    ensures WillNavigate(t, o, url, Some(Account), Some(Account)) == Redirect(Calendar, url)
    ensures WillNavigate(t, o, url, Some(Calendar), Some(Calendar)) == Redirect(Account, url)
  {
  }

  // ---------------------------------------------------------------------------
  // setWindowOpenHandler

  datatype Action = Allow | Deny

  /** What the window-open handler does besides answering. */
  datatype Effect = NoEffect | ShowIn(view: ViewID, url: string) | OpenExternal(url: string)

  datatype WindowOutcome = WindowOutcome(action: Action, effect: Effect)

  /** The window-open handler for `url`. */
  function WindowOpen(t: UrlTests, o: Overlays, url: string): (r: WindowOutcome)
    ensures t.isCalendar(url) ==> r == WindowOutcome(Deny, ShowIn(Calendar, url))
    ensures !t.isCalendar(url) && t.isMail(url) ==> r == WindowOutcome(Deny, ShowIn(Mail, url))
    ensures !t.isCalendar(url) && !t.isMail(url) && t.isAccount(url) ==>
              && r.action == Deny
              && r.effect == (if t.isAccountLite(url) || t.isUpsellURL(url) then OpenExternal(url) else ShowIn(Account, url))
    ensures r.action == Allow <==>
              !t.isCalendar(url) && !t.isMail(url) && !t.isAccount(url) && (t.isHostAllowed(url) || AnyOverlay(o))
    ensures r.action == Allow ==> r.effect == NoEffect
    ensures r.action == Deny ==> r.effect != NoEffect
    ensures r.effect.ShowIn? ==> r.effect.url == url
    ensures r.effect.OpenExternal? ==> r.effect.url == url
  {
    if t.isCalendar(url) then WindowOutcome(Deny, ShowIn(Calendar, url))
    else if t.isMail(url) then WindowOutcome(Deny, ShowIn(Mail, url))
    else if t.isAccount(url) then
      if t.isAccountLite(url) || t.isUpsellURL(url) then WindowOutcome(Deny, OpenExternal(url))
      else WindowOutcome(Deny, ShowIn(Account, url))
    else if t.isHostAllowed(url) then WindowOutcome(Allow, NoEffect)
    else if o.oauth then WindowOutcome(Allow, NoEffect)
    else if o.subscription then WindowOutcome(Allow, NoEffect)
    else WindowOutcome(Deny, OpenExternal(url))
  }

  /** No window opens inside the app on a host that is not allowed unless an overlay is open: such a link goes to the external browser. */
  lemma UntrustedWindowOpensExternally(t: UrlTests, o: Overlays, url: string)
    requires !t.isHostAllowed(url) && !AnyOverlay(o)
    requires !t.isCalendar(url) && !t.isMail(url) && !t.isAccount(url)
    ensures WindowOpen(t, o, url) == WindowOutcome(Deny, OpenExternal(url))
  {
  }

  /** The overlay flags matter only for hosts that are not allowed. */
  lemma WindowOverlaysIrrelevantWhenAllowed(t: UrlTests, o: Overlays, o': Overlays, url: string)
    requires t.isHostAllowed(url)
    ensures WindowOpen(t, o, url) == WindowOpen(t, o', url)
  {
  }

  // ---------------------------------------------------------------------------
  // Following an outcome

  /** `ShowViewEffect` for any state: its facts hold whenever the registry was valid. */
  lemma ShowViewEffectWhenValid(t: UrlTests, p: Platform, s: Registry, v: ViewID, target: string)
    ensures var st := ShowView(t, p, s, v, target);
            Valid(s) ==>
              && Valid(st.next)
              && (st.result.Ok? ==>
                    && st.next.current == Some(v) && st.next.window.Some? && st.next.window.value.attached == Some(v)
                    && (s.current != Some(v) ==> st.next.window.value.title == TitleOf(v)))
  {
    if Valid(s) {
      ShowViewEffect(t, p, s, v, target);
    }
  }

  /** Carries out a window-open effect on the registry: `showView` for `ShowIn`, nothing else otherwise. */
  function FollowEffect(t: UrlTests, p: Platform, s: Registry, e: Effect): (st: Step)
    ensures !e.ShowIn? ==> st == Step(s, Ok(()))
    ensures st.result.Err? ==> st.next == s
    ensures Valid(s) ==> Valid(st.next)
    ensures Valid(s) && e.ShowIn? && st.result.Ok? ==>
              st.next.current == Some(e.view) && st.next.window.Some? && st.next.window.value.attached == Some(e.view)
  {
    match e
    case ShowIn(v, url) =>
      ShowViewEffectWhenValid(t, p, s, v, url);
      ShowView(t, p, s, v, url)
    case _ => Step(s, Ok(()))
  }

  /** Carries out a `will-navigate` outcome on the registry: `showView` for a redirect, nothing else otherwise. */
  function FollowNavigation(t: UrlTests, p: Platform, s: Registry, n: NavOutcome): (st: Step)
    ensures !n.Redirect? ==> st == Step(s, Ok(()))
    ensures st.result.Err? ==> st.next == s
    ensures Valid(s) ==> Valid(st.next)
    ensures Valid(s) && n.Redirect? && st.result.Ok? ==>
              && st.next.current == Some(n.view) && st.next.window.Some? && st.next.window.value.attached == Some(n.view)
              && (s.current != Some(n.view) ==> st.next.window.value.title == TitleOf(n.view))
  {
    match n
    case Redirect(v, url) =>
      ShowViewEffectWhenValid(t, p, s, v, url);
      ShowView(t, p, s, v, url)
    case _ => Step(s, Ok(()))
  }

  /**
   * A window opened for a calendar link ends, once `showView` succeeds, with the
   * calendar view current and attached, and the registry still valid.
   */
  lemma CalendarLinkShowsCalendar(t: UrlTests, p: Platform, o: Overlays, s: Registry, url: string)
    requires Valid(s) && t.isCalendar(url)
    ensures var st := FollowEffect(t, p, s, WindowOpen(t, o, url).effect);
            && Valid(st.next)
            && (st.result.Ok? ==> st.next.current == Some(Calendar) && st.next.window.value.attached == Some(Calendar))
  {
  }

  /**
   * A redirected navigation in the visible view, once `showView` succeeds,
   * leaves another view current: the one the redirect chain picked.
   */
  lemma RedirectSwitchesView(t: UrlTests, p: Platform, o: Overlays, s: Registry, url: string)
    requires Valid(s)
    requires WillNavigate(t, o, url, s.current, s.current).Redirect?
    ensures var n := WillNavigate(t, o, url, s.current, s.current);
            var st := FollowNavigation(t, p, s, n);
            && Valid(st.next) && n.view != s.current.value
            && (st.result.Ok? ==> st.next.current == Some(n.view) && st.next.window.value.title == TitleOf(n.view))
  {
  }
}
