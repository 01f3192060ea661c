/**
 * The state of the view registry of `viewManagement.ts` as a value, and the
 * operations on it as functions: the specification that the `ViewManager`
 * class of module `ViewManagement` implements, and the lemmas about it.
 *
 * A load is one atomic step: it is issued to the rendering host and has
 * completed when the step ends.
 */
module ViewRegistry {
  import opened Common
  import opened UrlTests
  import opened Urls

  /** The three views (`VIEW_TARGET`). */
  datatype ViewID = Mail | Calendar | Account

  /** The iteration order of `Object.entries(browserViewMap)`. */
  const ViewOrder: seq<ViewID> := [Mail, Calendar, Account]

  /** The placeholder page loaded before a new URL and into reset views. */
  const Blank: string := "about:blank"

  /** `process.platform`: `win32`, `linux`, `darwin`, or anything else. */
  datatype Platform = Windows | Linux | MacOS | OtherPlatform

  datatype Rect = Rect(x: int, y: int, width: int, height: int)

  /** The space the window frame takes from the content area, per platform. */
  function AdjustBoundsForWindows(p: Platform, b: Rect): (r: Rect)
    ensures r.x == b.x && r.y == b.y
    ensures p == Windows ==> r.width == b.width - 16 && r.height == b.height - 32
    ensures p == Linux ==> r.width == b.width && r.height == b.height - 24
    ensures p != Windows && p != Linux ==> r == b
  {
    if p == Windows || p == Linux then
      var frameWidth := if p == Windows then 16 else 0;
      var frameHeight := if p == Windows then 32 else 24;
      Rect(b.x, b.y, b.width - frameWidth, b.height - frameHeight)
    else
      b
  }

  /** The window title shown with each view. */
  function TitleOf(v: ViewID): (r: string)
    ensures r == "Proton Mail" <==> v == Mail
    ensures r == "Proton Calendar" <==> v == Calendar
    ensures r == "Proton" <==> v == Account
  {
    match v
    case Mail => "Proton Mail"
    case Calendar => "Proton Calendar"
    case Account => "Proton"
  }

  /** A call the registry makes into the rendering host. */
  datatype Command =
    | Stop(view: ViewID)              // webContents.stop()
    | Load(view: ViewID, url: string) // webContents.loadURL(url)
    | Attach(view: ViewID)            // mainWindow.setBrowserView(view)

  /**
   * One view: the URL its contents report (`getURL()`), whether a main-frame
   * load is in flight (`isLoadingMainFrame()`), its bounds, and the identity of
   * its web contents.
   */
  datatype View = View(url: string, loading: bool, bounds: Rect, contents: nat)

  /** The main window: its title, its bounds, and the view attached to it. */
  datatype Window = Window(title: string, bounds: Rect, attached: Option<ViewID>)

  /** What the operations throw: `mainWindow is undefined`, a TypeError on an undefined view, `new URL` failing. */
  datatype Error = NoMainWindow | MissingView | InvalidURL

  /**
   * `browserViewMap` (a view absent from `views` is `undefined`), `loadingViewMap`
   * (the URL of each view's last load), `currentViewID`, `mainWindow`, and the
   * commands issued so far.
   */
  datatype Registry = Registry(
    views: map<ViewID, View>,
    loads: map<ViewID, string>,
    current: Option<ViewID>,
    window: Option<Window>,
    issued: seq<Command>
  )

  /** The state after an operation and what the operation returned or threw. */
  datatype Step = Step(next: Registry, result: Result<(), Error>)

  /** The state of the module before start-up: nothing created, no view current. */
  const Initial: Registry := Registry(map[], map[], None, None, [])

  /** All three views exist and each pending load belongs to a view. */
  ghost predicate Shaped(s: Registry)
  {
    && Mail in s.views && Calendar in s.views && Account in s.views
    && s.loads.Keys <= s.views.Keys
  }

  /**
   * Either nothing is created yet, or the window and all three views exist and
   * the attached view is the current one.
   */
  ghost predicate Valid(s: Registry)
  {
    && (s.window.None? ==> s.views == map[] && s.loads == map[] && s.current.None?)
    && (s.window.Some? ==> Shaped(s) && s.window.value.attached == s.current)
  }

  /** `getViewURL(viewID)`: the URL the view's contents report. */
  function ViewURL(s: Registry, v: ViewID): (r: Result<string, Error>)
    ensures r.Ok? <==> v in s.views
    ensures r.Ok? ==> r.value == s.views[v].url
  {
    if v in s.views then Ok(s.views[v].url) else Err(MissingView)
  }

  /** The URL of the current view, `None` while no view is current. */
  function CurrentURL(s: Registry): Option<string>
  {
    if s.current.Some? && s.current.value in s.views then Some(s.views[s.current.value].url) else None
  }

  // ---------------------------------------------------------------------------
  // updateLocalID

  /** `updateLocalID` rewrites `target` (it is allowed, not an account switch, and its local id differs from the current one). */
  predicate Rewrites(t: UrlTests, target: string, active: Option<string>)
  {
    && t.isHostAllowed(target) && !t.isAccountSwitch(target)
    && active.Some? && t.getLocalID(active.value).Some?
    && t.getLocalID(active.value) != t.getLocalID(target)
  }

  /**
   * `updateLocalID(target)`, with `active` the URL of the current view
   * (`None` when no view is current, where reading it throws).
   */
  function UpdateLocalID(t: UrlTests, target: string, active: Option<string>): (r: Result<string, Error>)
    ensures !t.isHostAllowed(target) || t.isAccountSwitch(target) ==> r == Ok(target)
    ensures t.isHostAllowed(target) && !t.isAccountSwitch(target) && active.None? ==> r == Err(MissingView)
    ensures t.isHostAllowed(target) && !t.isAccountSwitch(target) && active.Some?
            && (t.getLocalID(active.value).None? || t.getLocalID(active.value) == t.getLocalID(target))
            ==> r == Ok(target)
    ensures Rewrites(t, target, active) && Parse(target).None? ==> r == Err(InvalidURL)
    ensures Rewrites(t, target, active) && Parse(target).Some? ==>
              r.Ok? && Parse(r.value) == Some(WithPath(Parse(target).value, "/u/" + t.getLocalID(active.value).value))
  {
    if !t.isHostAllowed(target) || t.isAccountSwitch(target) then Ok(target)
    else if active.None? then Err(MissingView)
    else
      var id := t.getLocalID(active.value);
      if id.None? || id == t.getLocalID(target) then Ok(target)
      else
        match Parse(target)
        case None => Err(InvalidURL)
        case Some(u) =>
          var w := WithPath(u, "/u/" + id.value);
          ParseHref(w);
          Ok(Href(w))
  }

  /**
   * A rewritten URL keeps the scheme, host, query and fragment of the target and
   * its path is exactly `/u/<id>` (for an id without `?` or `#`).
   */
  lemma RewriteReplacesPath(t: UrlTests, target: string, active: Option<string>)
    requires Rewrites(t, target, active) && Parse(target).Some?
    requires Avoids(t.getLocalID(active.value).value, {'?', '#'})
    ensures var r := UpdateLocalID(t, target, active);
            var before, id := Parse(target).value, t.getLocalID(active.value).value;
            && r.Ok? && Parse(r.value).Some?
            && Parse(r.value).value.path == "/u/" + id
            && Parse(r.value).value.scheme == before.scheme
            && Parse(r.value).value.host == before.host
            && Parse(r.value).value.query == before.query
            && Parse(r.value).value.fragment == before.fragment
  {
    var id := t.getLocalID(active.value).value;
    var p := "/u/" + id;
    assert forall k :: 0 <= k < |p| ==> p[k] == if k < 3 then "/u/"[k] else id[k - 3];
    assert Avoids(p, {'?', '#'});
  }

  // ---------------------------------------------------------------------------
  // loadURL

  /** The commands of one load: stop the in-flight main-frame load, if any, then load. */
  function LoadCommands(v: ViewID, wasLoading: bool, u: string): seq<Command>
  {
    (if wasLoading then [Stop(v)] else []) + [Load(v, u)]
  }

  /** Issues a load of `u` into the existing view `v`, stopping an in-flight one first. */
  function Issue(s: Registry, v: ViewID, u: string): (r: Registry)
    requires v in s.views
    ensures r.views.Keys == s.views.Keys && r.current == s.current && r.window == s.window
    ensures r.views[v].url == u && !r.views[v].loading
    ensures r.views[v].bounds == s.views[v].bounds && r.views[v].contents == s.views[v].contents
    ensures forall w :: w in s.views && w != v ==> r.views[w] == s.views[w]
    ensures r.loads == s.loads[v := u]
    ensures r.issued == s.issued + LoadCommands(v, s.views[v].loading, u)
    ensures Shaped(s) ==> Shaped(r)
    ensures Valid(s) ==> Valid(r)
  {
    var view := s.views[v];
    s.(views := s.views[v := view.(url := u, loading := false)],
       loads := s.loads[v := u],
       issued := s.issued + LoadCommands(v, view.loading, u))
  }

  /** `loadURL(viewID, url)`. */
  function LoadURL(t: UrlTests, s: Registry, v: ViewID, u: string): (st: Step)
    ensures st.result.Ok? <==> v in s.views
    ensures st.result.Err? ==> st.next == s && st.result.error == MissingView
    ensures v in s.views && t.isSameURL(s.views[v].url, u) ==> st.next == s
    ensures v in s.views && !t.isSameURL(s.views[v].url, u) ==> st.next == Issue(s, v, u)
  {
    match ViewURL(s, v)
    case Err(e) => Step(s, Err(e))
    case Ok(here) =>
      if t.isSameURL(here, u) then Step(s, Ok(()))
      else Step(Issue(s, v, u), Ok(()))
  }

  /** A load changes only the view it loads: every other view and its pending load stay as they were. */
  lemma LoadTouchesOnlyItsView(t: UrlTests, s: Registry, v: ViewID, u: string, w: ViewID)
    requires w != v
    ensures var r := LoadURL(t, s, v, u).next;
            && r.current == s.current && r.window == s.window && r.views.Keys == s.views.Keys
            && (w in s.views ==> r.views[w] == s.views[w])
            && (w in r.loads <==> w in s.loads)
            && (w in s.loads ==> r.loads[w] == s.loads[w])
  {
  }

  /** After a load that is not skipped, the view is at `u`, has no load in flight, and the stop (if any) came before the new load. */
  lemma LoadSupersedes(t: UrlTests, s: Registry, v: ViewID, u: string)
    requires v in s.views && !t.isSameURL(s.views[v].url, u)
    ensures var r := LoadURL(t, s, v, u).next;
            && r.views[v].url == u && !r.views[v].loading && r.loads[v] == u
            && |r.issued| == |s.issued| + (if s.views[v].loading then 2 else 1)
            && r.issued[|r.issued| - 1] == Load(v, u)
            && (s.views[v].loading <==> r.issued[|s.issued|] == Stop(v))
  {
  }

  /** Loading the same URL twice issues nothing the second time (for a reflexive `isSameURL`). */
  lemma LoadIdempotent(t: UrlTests, s: Registry, v: ViewID, u: string)
    requires t.isSameURL(u, u)
    ensures var once := LoadURL(t, s, v, u);
            LoadURL(t, once.next, v, u) == Step(once.next, once.result)
  {
  }

  // ---------------------------------------------------------------------------
  // showView

  /** The URL `showView` works with: the target rewritten by `updateLocalID`, unless it is empty. */
  function Resolve(t: UrlTests, s: Registry, target: string): (r: Result<string, Error>)
    ensures target == "" ==> r == Ok(target)
    ensures !t.isHostAllowed(target) || t.isAccountSwitch(target) ==> r == Ok(target)
    ensures r.Err? ==> target != "" && t.isHostAllowed(target) && !t.isAccountSwitch(target)
    ensures r.Err? ==> r.error == InvalidURL || (r.error == MissingView && CurrentURL(s).None?)
  {
    if target != "" then UpdateLocalID(t, target, CurrentURL(s)) else Ok(target)
  }

  /** `mainWindow.setBrowserView(view)`. */
  function Attached(s: Registry, v: ViewID): (r: Registry)
    requires s.window.Some?
    ensures r.views == s.views && r.loads == s.loads && r.current == s.current
    ensures r.window == Some(s.window.value.(attached := Some(v))) && r.issued == s.issued + [Attach(v)]
    ensures s.current == Some(v) && Shaped(s) ==> Valid(r)
  {
    s.(window := Some(s.window.value.(attached := Some(v))), issued := s.issued + [Attach(v)])
  }

  /** Gives view `v` the content bounds of the window (`view.setBounds`). */
  function Fitted(p: Platform, s: Registry, v: ViewID): (r: Registry)
    requires s.window.Some? && v in s.views
    ensures r.views.Keys == s.views.Keys && r.loads == s.loads && r.current == s.current
    ensures r.window == s.window && r.issued == s.issued
    ensures var b := AdjustBoundsForWindows(p, s.window.value.bounds);
            r.views[v] == s.views[v].(bounds := Rect(0, 0, b.width, b.height))
    ensures forall w :: w in s.views && w != v ==> r.views[w] == s.views[w]
    ensures Valid(s) ==> Valid(r)
  {
    var b := AdjustBoundsForWindows(p, s.window.value.bounds);
    s.(views := s.views[v := s.views[v].(bounds := Rect(0, 0, b.width, b.height))])
  }

  /**
   * The loading branch of `internalShowView`: load the blank page, attach the
   * view, and then load `url`. The second `loadURL` is called before the
   * attach, but it issues nothing until it resumes from its first `await`,
   * which is after the attach.
   */
  function BlankAttachLoad(t: UrlTests, s: Registry, v: ViewID, url: string): (r: Registry)
    requires s.window.Some? && v in s.views
    ensures s.current == Some(v) && Shaped(s) ==> Valid(r)
    ensures r.current == s.current && r.window == Some(s.window.value.(attached := Some(v)))
    ensures r.views.Keys == s.views.Keys && r.views[v].bounds == s.views[v].bounds
    ensures forall w :: w in s.views && w != v ==> r.views[w] == s.views[w]
    ensures s.issued <= r.issued && Attach(v) in r.issued[|s.issued|..]
  {
    var s3 := LoadURL(t, s, v, Blank).next;
    var s4 := Attached(s3, v);
    var r := LoadURL(t, s4, v, url).next;
    assert r.issued[|s.issued|..] == s4.issued[|s.issued|..] + r.issued[|s4.issued|..];
    assert s4.issued[|s4.issued| - 1] == Attach(v);
    r
  }

  /**
   * The part of `internalShowView` that switches to a view that is not current:
   * make it current and set the title; when `url` is given and not the view's
   * URL, load the blank page, attach the view and load `url`; otherwise only
   * attach the view.
   */
  function SwitchTo(t: UrlTests, s: Registry, v: ViewID, url: string): (r: Registry)
    requires s.window.Some? && v in s.views
    ensures Shaped(s) ==> Valid(r)
    ensures r.current == Some(v)
    ensures r.window == Some(s.window.value.(title := TitleOf(v), attached := Some(v)))
    ensures r.views.Keys == s.views.Keys && r.views[v].bounds == s.views[v].bounds
    ensures forall w :: w in s.views && w != v ==> r.views[w] == s.views[w]
    ensures s.issued <= r.issued && Attach(v) in r.issued[|s.issued|..]
  {
    var s2 := s.(current := Some(v), window := Some(s.window.value.(title := TitleOf(v))));
    assert Shaped(s) ==> Shaped(s2);
    if url != "" && !t.isSameURL(url, s2.views[v].url) then BlankAttachLoad(t, s2, v, url)
    else Attached(s2, v)
  }

  /** `showView` once the URL is resolved. */
  function ShowResolved(t: UrlTests, p: Platform, s: Registry, v: ViewID, url: string): (st: Step)
    ensures st.result.Err? ==> st.next == s
    ensures s.window.None? ==> st.result == Err(NoMainWindow)
  {
    if s.window.None? then Step(s, Err(NoMainWindow))
    else if v !in s.views then Step(s, Err(MissingView))
    else if s.current == Some(v) then LoadURL(t, Fitted(p, s, v), v, url)
    else Step(SwitchTo(t, Fitted(p, s, v), v, url), Ok(()))
  }

  /** `showView(viewID, targetURL)` including `internalShowView` with the title of the view. */
  function ShowView(t: UrlTests, p: Platform, s: Registry, v: ViewID, target: string): (st: Step)
    ensures st.result.Err? ==> st.next == s
    ensures s.window.None? ==> st.result.Err?
    ensures s.window.None? && Resolve(t, s, target).Ok? ==> st.result == Err(NoMainWindow)
  {
    match Resolve(t, s, target)
    case Err(e) => Step(s, Err(e))
    case Ok(url) => ShowResolved(t, p, s, v, url)
  }

  /**
   * A successful `showView` makes `v` the current and attached view, keeps the
   * window's bounds, sets the title unless `v` was current already, gives `v`
   * the window's content bounds, and leaves every other view as it was.
   */
  lemma ShowViewEffect(t: UrlTests, p: Platform, s: Registry, v: ViewID, target: string)
    requires Valid(s)
    ensures var st := ShowView(t, p, s, v, target);
            && Valid(st.next)
            && (st.result.Ok? ==>
                  && s.window.Some? && st.next.window.Some?
                  && st.next.current == Some(v) && st.next.window.value.attached == Some(v)
                  && st.next.window.value.bounds == s.window.value.bounds
                  && st.next.window.value.title == (if s.current == Some(v) then s.window.value.title else TitleOf(v))
                  && var b := AdjustBoundsForWindows(p, s.window.value.bounds);
                     st.next.views[v].bounds == Rect(0, 0, b.width, b.height))
            && (forall w :: w in s.views && w != v ==> w in st.next.views && st.next.views[w] == s.views[w])
  {
  }

  /** `showView` to the current view only loads the URL into it: the title and the current view stay. */
  lemma ShowCurrentOnlyLoads(t: UrlTests, p: Platform, s: Registry, v: ViewID, target: string)
    requires Valid(s) && s.window.Some? && s.current == Some(v) && Resolve(t, s, target).Ok?
    ensures var st := ShowView(t, p, s, v, target);
            var url := Resolve(t, s, target).value;
            && st.result.Ok?
            && st.next.current == s.current && st.next.window == s.window
            && st.next.issued == LoadURL(t, s, v, url).next.issued
            && st.next.views[v].url == LoadURL(t, s, v, url).next.views[v].url
  {
  }

  /**
   * `showView` to another view with a new URL loads the blank page, attaches the
   * view, then loads the URL; it ends at the URL. (When `isSameURL` finds the
   * blank page already loaded, or the URL equal to the blank page, the load it
   * decides on is skipped.)
   */
  lemma ShowOtherLoadsBlankFirst(t: UrlTests, p: Platform, s: Registry, v: ViewID, target: string)
    requires Valid(s) && s.window.Some? && s.current != Some(v) && Resolve(t, s, target).Ok?
    requires var url := Resolve(t, s, target).value;
             && url != "" && !t.isSameURL(url, s.views[v].url)
             && !t.isSameURL(s.views[v].url, Blank) && !t.isSameURL(Blank, url)
    ensures var st := ShowView(t, p, s, v, target);
            var url := Resolve(t, s, target).value;
            && st.result.Ok?
            && st.next.current == Some(v) && st.next.window.value.title == TitleOf(v)
            && st.next.issued == s.issued + LoadCommands(v, s.views[v].loading, Blank) + [Attach(v), Load(v, url)]
            && st.next.views[v].url == url && st.next.loads[v] == url
  {
    var url := Resolve(t, s, target).value;
    var s1 := Fitted(p, s, v);
    assert ShowView(t, p, s, v, target) == Step(SwitchTo(t, s1, v, url), Ok(()));
    SwitchToLoads(t, s1, v, url);
  }

  /** `SwitchTo` with a new URL issues the blank-page load, the attach and the URL's load, in that order. */
  lemma SwitchToLoads(t: UrlTests, s: Registry, v: ViewID, url: string)
    requires s.window.Some? && v in s.views
    requires url != "" && !t.isSameURL(url, s.views[v].url)
    requires !t.isSameURL(s.views[v].url, Blank) && !t.isSameURL(Blank, url)
    ensures var r := SwitchTo(t, s, v, url);
            && r.issued == s.issued + LoadCommands(v, s.views[v].loading, Blank) + [Attach(v), Load(v, url)]
            && r.views[v].url == url && r.loads[v] == url
  {
    var s2 := s.(current := Some(v), window := Some(s.window.value.(title := TitleOf(v))));
    var s3 := Issue(s2, v, Blank);
    var s4 := Attached(s3, v);
    var s5 := Issue(s4, v, url);
    assert BlankAttachLoad(t, s2, v, url) == s5;
    assert SwitchTo(t, s, v, url) == s5;
    assert s5.issued == s.issued + LoadCommands(v, s.views[v].loading, Blank) + [Attach(v), Load(v, url)];
  }

  /**
   * `SwitchTo` with a new URL into a view that `isSameURL` already finds at the
   * blank page (as `resetHiddenViews` leaves it): the blank-page load returns
   * early, so only the attach and the URL's load are issued.
   */
  lemma SwitchFromBlankSkipsBlankLoad(t: UrlTests, s: Registry, v: ViewID, url: string)
    requires s.window.Some? && v in s.views
    requires url != "" && !t.isSameURL(url, s.views[v].url)
    requires t.isSameURL(s.views[v].url, Blank) && !t.isSameURL(s.views[v].url, url)
    ensures var r := SwitchTo(t, s, v, url);
            && r.issued == s.issued + [Attach(v)] + LoadCommands(v, s.views[v].loading, url)
            && r.views[v].url == url && r.loads[v] == url
  {
    var s2 := s.(current := Some(v), window := Some(s.window.value.(title := TitleOf(v))));
    var s4 := Attached(s2, v);
    var s5 := Issue(s4, v, url);
    assert BlankAttachLoad(t, s2, v, url) == s5;
    assert SwitchTo(t, s, v, url) == s5;
  }

  /** `showView` to another view with no URL, or with the URL it already shows, only attaches it. */
  lemma ShowOtherWithoutLoad(t: UrlTests, p: Platform, s: Registry, v: ViewID, target: string)
    requires Valid(s) && s.window.Some? && s.current != Some(v) && Resolve(t, s, target).Ok?
    requires var url := Resolve(t, s, target).value;
             url == "" || t.isSameURL(url, s.views[v].url)
    ensures var st := ShowView(t, p, s, v, target);
            && st.result.Ok?
            && st.next.issued == s.issued + [Attach(v)]
            && st.next.views[v].url == s.views[v].url
            && st.next.current == Some(v) && st.next.window.value.title == TitleOf(v)
  {
  }

  // ---------------------------------------------------------------------------
  // start-up

  /** The views as `createViews` makes them: blank contents, no load in flight. */
  function CreatedViews(): map<ViewID, View>
  {
    map[Mail := View("", false, Rect(0, 0, 0, 0), 0),
        Calendar := View("", false, Rect(0, 0, 0, 0), 1),
        Account := View("", false, Rect(0, 0, 0, 0), 2)]
  }

  /** `viewCreationAppStartup` up to scheduling `showView("mail")`: window, views, and the loads of mail and calendar. */
  function Startup(t: UrlTests, title: string, bounds: Rect, mailURL: string, calendarURL: string): (r: Registry)
    ensures Valid(r) && r.current.None?
    ensures r.window == Some(Window(title, bounds, None))
    ensures Account !in r.loads && r.views[Account].url == ""
    ensures !t.isSameURL("", mailURL) ==> r.views[Mail].url == mailURL && Mail in r.loads && r.loads[Mail] == mailURL
    ensures t.isSameURL("", mailURL) ==> r.views[Mail].url == "" && Mail !in r.loads
    ensures !t.isSameURL("", calendarURL) ==> r.views[Calendar].url == calendarURL && Calendar in r.loads && r.loads[Calendar] == calendarURL
    ensures t.isSameURL("", calendarURL) ==> r.views[Calendar].url == "" && Calendar !in r.loads
    ensures r.issued == (if t.isSameURL("", mailURL) then [] else [Load(Mail, mailURL)])
                        + (if t.isSameURL("", calendarURL) then [] else [Load(Calendar, calendarURL)])
  {
    var created := Registry(CreatedViews(), map[], None, Some(Window(title, bounds, None)), []);
    LoadURL(t, LoadURL(t, created, Mail, mailURL).next, Calendar, calendarURL).next
  }

  // ---------------------------------------------------------------------------
  // resetHiddenViews and reloadHiddenViews

  /** One step of `resetHiddenViews`: a view that exists and is not current loads the blank page. */
  function ResetOne(t: UrlTests, s: Registry, v: ViewID): Registry
  {
    if s.current != Some(v) && v in s.views then LoadURL(t, s, v, Blank).next else s
  }

  /** The steps of `resetHiddenViews` for the views `vs`, in order. */
  function ResetOver(t: UrlTests, s: Registry, vs: seq<ViewID>): (r: Registry)
    ensures r.current == s.current && r.window == s.window && r.views.Keys == s.views.Keys
  {
    if vs == [] then s else ResetOne(t, ResetOver(t, s, vs[..|vs| - 1]), vs[|vs| - 1])
  }

  /** `resetHiddenViews()`. */
  function ResetHiddenViews(t: UrlTests, s: Registry): (r: Registry)
    ensures r.current == s.current && r.window == s.window && r.views.Keys == s.views.Keys
  {
    ResetOver(t, s, ViewOrder)
  }

  /** A command `resetHiddenViews` may issue: stop or load the blank page, in a view other than `current`. */
  predicate ResetCommand(c: Command, current: Option<ViewID>)
  {
    Some(c.view) != current && (c.Stop? || c == Load(c.view, Blank))
  }

  /** `resetHiddenViews` keeps the registry valid and issues only stops and blank loads, in views other than the current one. */
  lemma {:induction false} ResetOverCommands(t: UrlTests, s: Registry, vs: seq<ViewID>)
    requires Valid(s)
    ensures var r := ResetOver(t, s, vs);
            && Valid(r)
            && s.issued <= r.issued
            && (forall k :: |s.issued| <= k < |r.issued| ==> ResetCommand(r.issued[k], s.current))
  {
    if vs != [] {
      var init, v := vs[..|vs| - 1], vs[|vs| - 1];
      ResetOverCommands(t, s, init);
      var m := ResetOver(t, s, init);
      var r := ResetOne(t, m, v);
      if s.current != Some(v) && v in m.views && !t.isSameURL(m.views[v].url, Blank) {
        assert r.issued == m.issued + LoadCommands(v, m.views[v].loading, Blank);
      }
    }
  }

  /**
   * What `resetHiddenViews` does to one view `w`: a view that is current or not
   * listed is untouched; a listed hidden view ends at the blank page with no
   * load in flight, unless it already showed a page `isSameURL` to it.
   */
  lemma {:induction false} ResetOverView(t: UrlTests, s: Registry, vs: seq<ViewID>, w: ViewID)
    requires w in s.views
    ensures var r := ResetOver(t, s, vs);
            && w in r.views
            && ((w !in vs || Some(w) == s.current) ==>
                  r.views[w] == s.views[w] && (w in r.loads <==> w in s.loads) && (w in s.loads ==> r.loads[w] == s.loads[w]))
            && (w in vs && Some(w) != s.current && t.isSameURL(s.views[w].url, Blank) ==> r.views[w] == s.views[w])
            && (w in vs && Some(w) != s.current && !t.isSameURL(s.views[w].url, Blank) ==>
                  r.views[w] == s.views[w].(url := Blank, loading := false) && w in r.loads && r.loads[w] == Blank)
  {
    if vs != [] {
      var init, v := vs[..|vs| - 1], vs[|vs| - 1];
      assert vs == init + [v];
      ResetOverView(t, s, init, w);
      var m := ResetOver(t, s, init);
      if w != v {
        assert w in vs <==> w in init;
      } else if s.current != Some(w) && w in init && !t.isSameURL(s.views[w].url, Blank) {
        assert m.views[w] == s.views[w].(url := Blank, loading := false);
      }
    }
  }

  /**
   * `resetHiddenViews()` loads the blank page into each view other than the
   * current one and leaves the current view, the current id and the window untouched.
   */
  lemma ResetHiddenViewsEffect(t: UrlTests, s: Registry)
    requires Valid(s)
    ensures var r := ResetHiddenViews(t, s);
            && Valid(r) && r.current == s.current && r.window == s.window
            && (s.current.Some? && s.current.value in s.views ==> r.views[s.current.value] == s.views[s.current.value])
            && (forall w :: w in s.views && Some(w) != s.current && !t.isSameURL(s.views[w].url, Blank) ==>
                  r.views[w].url == Blank && !r.views[w].loading && w in r.loads && r.loads[w] == Blank)
            && (forall k :: |s.issued| <= k < |r.issued| ==> ResetCommand(r.issued[k], s.current))
  {
    ResetOverCommands(t, s, ViewOrder);
    forall w | w in s.views
      ensures var r := ResetHiddenViews(t, s);
              && w in r.views
              && (Some(w) == s.current ==> r.views[w] == s.views[w])
              && (Some(w) != s.current && !t.isSameURL(s.views[w].url, Blank) ==>
                    r.views[w].url == Blank && !r.views[w].loading && w in r.loads && r.loads[w] == Blank)
    {
      ResetOverView(t, s, ViewOrder, w);
      assert w in ViewOrder by { assert w == ViewOrder[0] || w == ViewOrder[1] || w == ViewOrder[2]; }
    }
  }

  // reloadHiddenViews, as written: `loadURL(viewID, await getViewURL(viewID))`

  function ReloadOneAsWritten(t: UrlTests, s: Registry, v: ViewID): Registry
  {
    if s.current != Some(v) && v in s.views then LoadURL(t, s, v, s.views[v].url).next else s
  }

  function ReloadOverAsWritten(t: UrlTests, s: Registry, vs: seq<ViewID>): (r: Registry)
    ensures r.current == s.current && r.window == s.window && r.views.Keys == s.views.Keys
  {
    if vs == [] then s else ReloadOneAsWritten(t, ReloadOverAsWritten(t, s, vs[..|vs| - 1]), vs[|vs| - 1])
  }

  /** `reloadHiddenViews()` as the program writes it. */
  function ReloadHiddenViewsAsWritten(t: UrlTests, s: Registry): (r: Registry)
    ensures r.current == s.current && r.window == s.window && r.views.Keys == s.views.Keys
  {
    ReloadOverAsWritten(t, s, ViewOrder)
  }

  lemma {:induction false} ReloadOverAsWrittenIsNoOp(t: UrlTests, s: Registry, vs: seq<ViewID>)
    requires forall w :: w in s.views ==> t.isSameURL(s.views[w].url, s.views[w].url)
    ensures ReloadOverAsWritten(t, s, vs) == s
  {
    if vs != [] {
      ReloadOverAsWrittenIsNoOp(t, s, vs[..|vs| - 1]);
    }
  }

  /**
   * As written, `reloadHiddenViews` asks each hidden view to load the URL it
   * already shows, and `loadURL` returns early for a URL `isSameURL` to the
   * view's own: whenever `isSameURL` is reflexive it changes nothing and issues
   * no command.
   */
  lemma ReloadHiddenAsWrittenIsNoOp(t: UrlTests, s: Registry)
    requires forall w :: w in s.views ==> t.isSameURL(s.views[w].url, s.views[w].url)
    ensures ReloadHiddenViewsAsWritten(t, s) == s
  {
    ReloadOverAsWrittenIsNoOp(t, s, ViewOrder);
  }

  // reloadHiddenViews, corrected: each hidden view re-requests its own URL

  function ReloadOne(s: Registry, v: ViewID): Registry
  {
    if s.current != Some(v) && v in s.views then Issue(s, v, s.views[v].url) else s
  }

  function ReloadOver(s: Registry, vs: seq<ViewID>): (r: Registry)
    ensures r.current == s.current && r.window == s.window && r.views.Keys == s.views.Keys
  {
    if vs == [] then s else ReloadOne(ReloadOver(s, vs[..|vs| - 1]), vs[|vs| - 1])
  }

  /** `reloadHiddenViews()`, with the load of each hidden view issued even though its URL is unchanged. */
  function ReloadHiddenViews(s: Registry): (r: Registry)
    ensures r.current == s.current && r.window == s.window && r.views.Keys == s.views.Keys
  {
    ReloadOver(s, ViewOrder)
  }

  /** A command the corrected `reloadHiddenViews` may issue: stop, or reload the view's URL, in a hidden view. */
  ghost predicate ReloadCommand(c: Command, s: Registry)
  {
    Some(c.view) != s.current && c.view in s.views && (c.Stop? || c == Load(c.view, s.views[c.view].url))
  }

  /** What the corrected `reloadHiddenViews` does to one view `w`: its URL stays; a listed hidden view has no load in flight. */
  lemma {:induction false} ReloadOverView(s: Registry, vs: seq<ViewID>, w: ViewID)
    requires w in s.views
    ensures var r := ReloadOver(s, vs);
            && w in r.views && r.views[w].url == s.views[w].url
            && r.views[w].bounds == s.views[w].bounds && r.views[w].contents == s.views[w].contents
            && ((w !in vs || Some(w) == s.current) ==> r.views[w] == s.views[w])
            && (w in vs && Some(w) != s.current ==> !r.views[w].loading)
  {
    if vs != [] {
      var init, v := vs[..|vs| - 1], vs[|vs| - 1];
      assert vs == init + [v];
      ReloadOverView(s, init, w);
      if w != v {
        assert w in vs <==> w in init;
      }
    }
  }

  lemma {:induction false} ReloadOverCommands(s: Registry, vs: seq<ViewID>)
    requires Valid(s)
    ensures var r := ReloadOver(s, vs);
            && Valid(r)
            && s.issued <= r.issued
            && (forall k :: |s.issued| <= k < |r.issued| ==> ReloadCommand(r.issued[k], s))
            && (forall w :: w in vs && w in s.views && Some(w) != s.current ==> Load(w, s.views[w].url) in r.issued[|s.issued|..])
  {
    if vs != [] {
      var init, v := vs[..|vs| - 1], vs[|vs| - 1];
      assert vs == init + [v];
      ReloadOverCommands(s, init);
      var m := ReloadOver(s, init);
      var r := ReloadOne(m, v);
      if s.current != Some(v) && v in m.views {
        ReloadOverView(s, init, v);
        var cmds := LoadCommands(v, m.views[v].loading, m.views[v].url);
        assert r.issued == m.issued + cmds;
        assert r.issued[|s.issued|..] == m.issued[|s.issued|..] + cmds;
        assert Load(v, s.views[v].url) in cmds;
        forall k | |s.issued| <= k < |r.issued|
          ensures ReloadCommand(r.issued[k], s)
        {
          if k >= |m.issued| {
            assert r.issued[k] == cmds[k - |m.issued|];
          }
        }
        forall w | w in vs && w in s.views && Some(w) != s.current
          ensures Load(w, s.views[w].url) in r.issued[|s.issued|..]
        {
          if w != v {
            assert w in init;
            assert Load(w, s.views[w].url) in m.issued[|s.issued|..];
          }
        }
      } else {
        assert r == m;
      }
    }
  }

  /**
   * The corrected `reloadHiddenViews()` issues a load of its own URL for every
   * view other than the current one, and nothing else; no view changes URL, and
   * the current view, the current id and the window are untouched.
   */
  lemma ReloadHiddenViewsEffect(s: Registry)
    requires Valid(s)
    ensures var r := ReloadHiddenViews(s);
            && Valid(r) && r.current == s.current && r.window == s.window && s.issued <= r.issued
            && (forall w :: w in s.views ==> r.views[w].url == s.views[w].url)
            && (s.current.Some? && s.current.value in s.views ==> r.views[s.current.value] == s.views[s.current.value])
            && (forall w :: w in s.views && Some(w) != s.current ==> Load(w, s.views[w].url) in r.issued[|s.issued|..])
            && (forall k :: |s.issued| <= k < |r.issued| ==> ReloadCommand(r.issued[k], s))
  {
    ReloadOverCommands(s, ViewOrder);
    forall w | w in s.views
      ensures w in ViewOrder && ReloadHiddenViews(s).views[w].url == s.views[w].url
      ensures Some(w) == s.current ==> ReloadHiddenViews(s).views[w] == s.views[w]
    {
      assert w == ViewOrder[0] || w == ViewOrder[1] || w == ViewOrder[2];
      ReloadOverView(s, ViewOrder, w);
    }
  }
}
