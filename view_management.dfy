/**
 * The module state of `viewManagement.ts` as an object: `browserViewMap`,
 * `loadingViewMap`, `currentViewID` and `mainWindow` are fields that the
 * operations update in place. Each operation is proved to move the object from
 * `old(Model())` to the state the functions of `ViewRegistry` describe, so the
 * lemmas proved there hold for the object.
 */
module ViewManagement {
  import opened Common
  import opened UrlTests
  import opened ViewRegistry

  class ViewManager {
    /** The URL predicates of `urlTests` and `process.platform`, fixed for the run. */
    const tests: UrlTests
    const platform: Platform

    var views: map<ViewID, View>
    var loads: map<ViewID, string>
    var current: Option<ViewID>
    var window: Option<Window>
    var issued: seq<Command>

    /** The registry value this object stands for. */
    function Model(): Registry
      reads this
    {
      Registry(views, loads, current, window, issued)
    }

    ghost predicate Valid()
      reads this
    {
      ViewRegistry.Valid(Model())
    }

    /** The module as it is loaded: no window, no views, no current view. */
    constructor (t: UrlTests, p: Platform)
      ensures tests == t && platform == p
      ensures Model() == Initial && Valid()
    {
      tests, platform := t, p;
      views, loads, current, window, issued := map[], map[], None, None, [];
    }

    /** `viewCreationAppStartup` (window and views created, mail and calendar loaded). */
    method Startup(title: string, bounds: Rect, mailURL: string, calendarURL: string)
      requires window.None?
      modifies this
      ensures Model() == ViewRegistry.Startup(tests, title, bounds, mailURL, calendarURL)
      ensures Valid()
    {
      window := Some(Window(title, bounds, None));
      views, loads, current, issued := CreatedViews(), map[], None, [];
      var _ := LoadURL(Mail, mailURL);
      var _ := LoadURL(Calendar, calendarURL);
    }

    /** `getViewURL(viewID)`: the URL the view reports, or the TypeError of an undefined view. */
    method GetViewURL(v: ViewID) returns (r: Result<string, Error>)
      ensures r.Ok? <==> v in views
      ensures r.Ok? ==> r.value == views[v].url
      ensures r.Err? ==> r.error == MissingView
    {
      if v in views {
        r := Ok(views[v].url);
      } else {
        r := Err(MissingView);
      }
    }

    /** Stops the view's main-frame load if one is in flight, then loads `u` into it. */
    method Issue(v: ViewID, u: string)
      requires v in views
      modifies this
      ensures Model() == ViewRegistry.Issue(old(Model()), v, u)
    {
      var view := views[v];
      if view.loading {
        issued := issued + [Stop(v)];
      }
      loads := loads[v := u];
      issued := issued + [Load(v, u)];
      views := views[v := view.(url := u, loading := false)];
    }

    /** `loadURL(viewID, url)`. */
    method LoadURL(v: ViewID, u: string) returns (r: Result<(), Error>)
      modifies this
      ensures var st := ViewRegistry.LoadURL(tests, old(Model()), v, u);
              Model() == st.next && r == st.result
    {
      var here := GetViewURL(v);
      if here.Err? {
        return Err(here.error);
      }
      if tests.isSameURL(here.value, u) {
        return Ok(());
      }
      Issue(v, u);
      r := Ok(());
    }

    /** `view.setBounds` with the content bounds of the window. */
    method Fit(v: ViewID)
      requires window.Some? && v in views
      modifies this
      ensures Model() == Fitted(platform, old(Model()), v)
    {
      var b := AdjustBoundsForWindows(platform, window.value.bounds);
      views := views[v := views[v].(bounds := Rect(0, 0, b.width, b.height))];
    }

    /** `mainWindow.setBrowserView(view)`. */
    method Attach(v: ViewID)
      requires window.Some?
      modifies this
      ensures Model() == Attached(old(Model()), v)
    {
      window := Some(window.value.(attached := Some(v)));
      issued := issued + [Command.Attach(v)];
    }

    /** `internalShowView` for a view that is not current: make it current, retitle, load the blank page, attach, load `url`. */
    method SwitchTo(v: ViewID, url: string)
      requires window.Some? && v in views
      modifies this
      ensures Model() == ViewRegistry.SwitchTo(tests, old(Model()), v, url)
    {
      current := Some(v);
      window := Some(window.value.(title := TitleOf(v)));
      if url != "" && !tests.isSameURL(url, views[v].url) {
        var _ := LoadURL(v, Blank);
        Attach(v);
        var _ := LoadURL(v, url);
      } else {
        Attach(v);
      }
    }

    /** `showView` once `updateLocalID` has produced `url`. */
    method ShowResolved(v: ViewID, url: string) returns (r: Result<(), Error>)
      modifies this
      ensures var st := ViewRegistry.ShowResolved(tests, platform, old(Model()), v, url);
              Model() == st.next && r == st.result
    {
      if window.None? {
        return Err(NoMainWindow);
      }
      if v !in views {
        return Err(MissingView);
      }
      Fit(v);
      if current == Some(v) {
        r := LoadURL(v, url);
      } else {
        SwitchTo(v, url);
        r := Ok(());
      }
    }

    /** `showView(viewID, targetURL)`, with `internalShowView` and the title of each view. */
    method ShowView(v: ViewID, target: string) returns (r: Result<(), Error>)
      modifies this
      ensures var st := ViewRegistry.ShowView(tests, platform, old(Model()), v, target);
              Model() == st.next && r == st.result
      ensures old(Valid()) ==> Valid()
    {
      ghost var s := Model();
      var resolved := Resolve(tests, Model(), target);
      if resolved.Err? {
        return Err(resolved.error);
      }
      r := ShowResolved(v, resolved.value);
      if ViewRegistry.Valid(s) {
        ShowViewEffect(tests, platform, s, v, target);
      }
    }

    /** `resetHiddenViews()`: each view other than the current one, in map order, loads the blank page. */
    method ResetHiddenViews()
      modifies this
      ensures Model() == ViewRegistry.ResetHiddenViews(tests, old(Model()))
      ensures old(Valid()) ==> Valid()
    {
      ghost var s := Model();
      for i := 0 to |ViewOrder|
        invariant Model() == ResetOver(tests, s, ViewOrder[..i])
      {
        var v := ViewOrder[i];
        assert ViewOrder[..i + 1][..i] == ViewOrder[..i];
        if current != Some(v) && v in views {
          var _ := LoadURL(v, Blank);
        }
      }
      assert ViewOrder[..|ViewOrder|] == ViewOrder;
      if ViewRegistry.Valid(s) {
        ResetHiddenViewsEffect(tests, s);
      }
    }

    /**
     * `reloadHiddenViews()` as evidently intended: each view other than the
     * current one, in map order, reloads its own URL even though it is
     * unchanged. (The program as written reloads nothing; see
     * `ViewRegistry.ReloadHiddenAsWrittenIsNoOp`.)
     */
    method ReloadHiddenViewsForced()
      modifies this
      ensures Model() == ViewRegistry.ReloadHiddenViews(old(Model()))
      ensures old(Valid()) ==> Valid()
    {
      ghost var s := Model();
      for i := 0 to |ViewOrder|
        invariant Model() == ReloadOver(s, ViewOrder[..i])
      {
        var v := ViewOrder[i];
        assert ViewOrder[..i + 1][..i] == ViewOrder[..i];
        if current != Some(v) && v in views {
          var here := GetViewURL(v);
          Issue(v, here.value);
        }
      }
      assert ViewOrder[..|ViewOrder|] == ViewOrder;
      if ViewRegistry.Valid(s) {
        ReloadHiddenViewsEffect(s);
      }
    }

    /** `getWebContentsViewName(webContents)`: the first view, in map order, whose contents is `c`. */
    method GetWebContentsViewName(c: nat) returns (r: Option<ViewID>)
      ensures r.Some? ==> r.value in views && views[r.value].contents == c
      ensures r.Some? ==> forall k :: 0 <= k < IndexOf(r.value) ==> ViewOrder[k] !in views || views[ViewOrder[k]].contents != c
      ensures r.None? <==> forall w :: w in views ==> views[w].contents != c
    {
      for i := 0 to |ViewOrder|
        invariant forall k :: 0 <= k < i ==> ViewOrder[k] !in views || views[ViewOrder[k]].contents != c
      {
        var v := ViewOrder[i];
        if v in views && views[v].contents == c {
          return Some(v);
        }
      }
      forall w | w in views
        ensures views[w].contents != c
      {
        assert w == ViewOrder[IndexOf(w)];
      }
      r := None;
    }

    /** The rendering host starts a main-frame load in view `v` by itself (the page navigates). */
    method HostStartsLoading(v: ViewID)
      requires v in views
      modifies this
      ensures views == old(views[v := views[v].(loading := true)])
      ensures loads == old(loads) && current == old(current) && window == old(window) && issued == old(issued)
      ensures old(Valid()) ==> Valid()
    {
      views := views[v := views[v].(loading := true)];
    }

    /** The rendering host finishes the load it started in view `v`, which ends at `u`. */
    method HostStopsLoading(v: ViewID, u: string)
      requires v in views
      modifies this
      ensures views == old(views[v := views[v].(url := u, loading := false)])
      ensures loads == old(loads) && current == old(current) && window == old(window) && issued == old(issued)
      ensures old(Valid()) ==> Valid()
    {
      views := views[v := views[v].(url := u, loading := false)];
    }
  }

  /** The position of a view in the map order. */
  function IndexOf(v: ViewID): (k: nat)
    ensures k < |ViewOrder| && ViewOrder[k] == v
  {
    match v
    case Mail => 0
    case Calendar => 1
    case Account => 2
  }
}
