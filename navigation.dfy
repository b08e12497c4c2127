/** src/components/lib/NavigationTracker.jsx: which page a location names,
    and whether a page view is logged for it. The page keys are those of
    the routing configuration, in their declaration order. */
module Navigation {
  import opened Wrappers
  import opened Text
  import opened Utils

  /** The keys of `Pages` in the routing configuration (src/pages.config.js). */
  const PageKeys: seq<string> := ["Splash", "Dashboard", "JobDetail", "CalendarView", "Reports",
    "Inventory", "Crew", "SafetyChecklist", "SettingsPage"]

  /** `mainPage` in the routing configuration. */
  const MainPage: Option<string> := Some("Splash")

  /** `mainPage ?? Object.keys(Pages)[0]`; `None` is `undefined`. */
  function MainPageKey(mainPage: Option<string>, keys: seq<string>): (r: Option<string>)
    ensures mainPage.Some? ==> r == mainPage
    ensures mainPage.None? && keys != [] ==> r == Some(keys[0])
    ensures mainPage.None? && keys == [] ==> r.None?
  {
    if mainPage.Some? then mainPage
    else if keys != [] then Some(keys[0])
    else None
  }

  /** `pathname.replace(/^\//, '')`: one leading slash is dropped. */
  function DropLeadingSlash(pathname: string): (r: string)
    ensures StartsWith(pathname, "/") ==> "/" + r == pathname
    ensures !StartsWith(pathname, "/") ==> r == pathname
  {
    if StartsWith(pathname, "/") then pathname[1..] else pathname
  }

  /** `....split('/')[0]`. */
  function FirstSegment(pathname: string): string {
    Split(DropLeadingSlash(pathname), '/')[0]
  }

  /** `pageKeys.find((key) => key.toLowerCase() === segment.toLowerCase())`. */
  function FindKey(keys: seq<string>, segment: string): (r: Option<nat>)
    ensures r.Some? ==> r.value < |keys| && Lower(keys[r.value]) == Lower(segment)
    ensures r.Some? ==> forall j :: 0 <= j < r.value ==> Lower(keys[j]) != Lower(segment)
    ensures r.None? <==> forall j :: 0 <= j < |keys| ==> Lower(keys[j]) != Lower(segment)
  {
    if keys == [] then None
    else if Lower(keys[0]) == Lower(segment) then Some(0)
    else match FindKey(keys[1..], segment)
      case None => None
      case Some(i) => Some(i + 1)
  }

  /** The page name the effect computes for `pathname`; `None` is `null`
      (or `undefined`). */
  function ResolvePage(pathname: string, keys: seq<string>, mainKey: Option<string>): Option<string> {
    if pathname == "/" || pathname == "" then mainKey
    else match FindKey(keys, FirstSegment(pathname))
      case None => None
      case Some(i) => if keys[i] == "" then None else Some(keys[i])
  }

  /** The page name passed to the page-view log, or `None` when the effect
      makes no call: nothing at all in local-development mode, and otherwise
      only for an authenticated user on a page whose name is truthy. */
  function PageView(localDevMode: bool, isAuthenticated: bool, pathname: string,
                    keys: seq<string>, mainPage: Option<string>): Option<string>
  {
    if localDevMode then None
    else
      var pageName := ResolvePage(pathname, keys, MainPageKey(mainPage, keys));
      if isAuthenticated && pageName.Some? && pageName.value != "" then pageName else None
  }

  // ---------------------------------------------------------------------------

  /** With the application's configuration the main page is the splash page. */
  lemma MainPageIsSplash()
    ensures MainPageKey(MainPage, PageKeys) == Some("Splash")
  {
  }

  /** The root path, with or without its slash, names the main page. */
  lemma RootIsMainPage(keys: seq<string>, mainPage: Option<string>)
    ensures ResolvePage("/", keys, MainPageKey(mainPage, keys)) == MainPageKey(mainPage, keys)
    ensures ResolvePage("", keys, MainPageKey(mainPage, keys)) == MainPageKey(mainPage, keys)
  {
  }

  /** Key `i` is the first that equals `segment` ignoring case. */
  predicate FirstMatch(keys: seq<string>, segment: string, i: int) {
    0 <= i < |keys| && Lower(keys[i]) == Lower(segment) &&
    forall j :: 0 <= j < i ==> Lower(keys[j]) != Lower(segment)
  }

  /** Any other path names the first key that equals its first segment
      ignoring case, or nothing when no key does. */
  lemma ResolveFindsFirstKey(pathname: string, keys: seq<string>, mainKey: Option<string>)
    requires pathname != "/" && pathname != ""
    ensures var r := ResolvePage(pathname, keys, mainKey);
      r.Some? ==> exists i :: FirstMatch(keys, FirstSegment(pathname), i) && keys[i] == r.value
    ensures (forall j :: 0 <= j < |keys| ==> Lower(keys[j]) != Lower(FirstSegment(pathname))) ==>
      ResolvePage(pathname, keys, mainKey).None?
  {
    var f := FindKey(keys, FirstSegment(pathname));
    if f.Some? && keys[f.value] != "" {
      assert FirstMatch(keys, FirstSegment(pathname), f.value);
    }
  }

  /** Keys that differ from each other ignoring case. */
  predicate CaseDistinct(keys: seq<string>) {
    forall i, j :: 0 <= i < |keys| && 0 <= j < |keys| && Lower(keys[i]) == Lower(keys[j]) ==> i == j
  }

  /** A path whose first segment is a page key in any case names that key. */
  lemma SegmentNamesItsKey(keys: seq<string>, i: nat, segment: string, mainKey: Option<string>)
    requires CaseDistinct(keys) && i < |keys| && keys[i] != ""
    requires Lower(segment) == Lower(keys[i]) && '/' !in segment
    ensures ResolvePage("/" + segment, keys, mainKey) == Some(keys[i])
    ensures ResolvePage(segment, keys, mainKey) == Some(keys[i])
  {
    assert |Lower(segment)| == |segment| > 0;
    var p := "/" + segment;
    assert StartsWith(p, "/") && p[1..] == segment;
    SplitNoSep(segment, '/');
    ResolveBySegment(p, keys, i, mainKey);
    if |segment| > 1 {
      assert segment[0] in segment;
      ResolveBySegment(segment, keys, i, mainKey);
    } else {
      assert segment != "/";
    }
  }

  /** Whatever follows the segment after the next slash is ignored. */
  lemma SubpathNamesItsKey(keys: seq<string>, i: nat, segment: string, rest: string, mainKey: Option<string>)
    requires CaseDistinct(keys) && i < |keys| && keys[i] != ""
    requires Lower(segment) == Lower(keys[i]) && '/' !in segment
    ensures ResolvePage("/" + segment + "/" + rest, keys, mainKey) == Some(keys[i])
  {
    var tail := segment + ['/'] + rest;
    var p := "/" + segment + "/" + rest;
    assert p == "/" + tail;
    assert DropLeadingSlash(p) == tail by {
      assert p[..1] == "/" && p[1..] == tail;
    }
    SplitAtFirst(segment, '/', rest);
    assert FirstSegment(p) == segment;
    ResolveBySegment(p, keys, i, mainKey);
  }

  lemma ResolveBySegment(pathname: string, keys: seq<string>, i: nat, mainKey: Option<string>)
    requires pathname != "/" && pathname != ""
    requires CaseDistinct(keys) && i < |keys| && keys[i] != ""
    requires Lower(FirstSegment(pathname)) == Lower(keys[i])
    ensures ResolvePage(pathname, keys, mainKey) == Some(keys[i])
  {
    var f := FindKey(keys, FirstSegment(pathname));
    assert f.Some? && f.value == i;
  }

  /** In local-development mode no page view is ever logged. */
  lemma LocalDevModeLogsNothing(isAuthenticated: bool, pathname: string, keys: seq<string>, mainPage: Option<string>)
    ensures PageView(true, isAuthenticated, pathname, keys, mainPage).None?
  {
  }

  /** A page view is logged exactly for an authenticated user outside
      local-development mode on a location that names a page, and then it
      names that page. */
  lemma PageViewMeaning(localDevMode: bool, isAuthenticated: bool, pathname: string, keys: seq<string>, mainPage: Option<string>)
    ensures var name := ResolvePage(pathname, keys, MainPageKey(mainPage, keys));
      PageView(localDevMode, isAuthenticated, pathname, keys, mainPage).Some? <==>
        !localDevMode && isAuthenticated && name.Some? && name.value != ""
    ensures PageView(localDevMode, isAuthenticated, pathname, keys, mainPage).Some? ==>
      PageView(localDevMode, isAuthenticated, pathname, keys, mainPage) ==
        ResolvePage(pathname, keys, MainPageKey(mainPage, keys))
  {
  }
}
