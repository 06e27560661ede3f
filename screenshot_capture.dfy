/**
 * The screenshot utility: resolving a route to a full url, the quality
 * mapping, the full-page capture plan (one visible-area capture per viewport
 * height, of which only the first is returned), capturing one route without
 * ever throwing, and capturing several routes in order with progress.
 *
 * The browser is an oracle: the active tabs, what `new URL(u).origin` gives,
 * how navigation, the page-dimension query, each capture and the metadata
 * query turn out.
 */
module ScreenshotCapture {
  import opened Wrappers
  import Text
  import opened Progress
  import opened BackgroundTypes
  import Options
  import Collections
  import Base64

  const NoTabMessage := "No active tab found"

  datatype Tab = Tab(id: nat, url: string)

  /** The first active tab, or the error for none. */
  function GetCurrentTab(tabs: seq<Tab>): (r: Result<Tab>)
    ensures r.Ok? <==> tabs != []
    ensures r.Ok? ==> r.value == tabs[0]
    ensures r.Err? ==> r.error == NoTabMessage
  {
    if tabs == [] then Err(NoTabMessage) else Ok(tabs[0])
  }

  // ---------------------------------------------------------------------------
  // buildFullUrl

  predicate EndsWith(s: string, suffix: string)
  {
    |suffix| <= |s| && s[|s| - |suffix|..] == suffix
  }

  /**
   * A route that starts with "http" is already full; otherwise it is
   * appended to the origin of the current url, and a current url that does
   * not parse gives the "Invalid URL" error. `origin` is `new URL(u).origin`,
   * or None when the constructor throws.
   */
  function BuildFullUrl(routeUrl: string, currentUrl: string, origin: string -> Option<string>): (r: Result<string>)
    ensures Text.StartsWith(routeUrl, "http") ==> r == Ok(routeUrl)
    ensures !Text.StartsWith(routeUrl, "http") ==>
      r == if origin(currentUrl).Some? then Ok(origin(currentUrl).value + routeUrl) else Err("Invalid URL: " + routeUrl)
    ensures r.Ok? ==> EndsWith(r.value, routeUrl)
  {
    if Text.StartsWith(routeUrl, "http") then Ok(routeUrl)
    else match origin(currentUrl)
      case None => Err("Invalid URL: " + routeUrl)
      case Some(o) => Ok(o + routeUrl)
  }

  /** A url built from an "http" origin is full: building it again, from any page, leaves it as it is. */
  lemma BuildFullUrlStable(routeUrl: string, currentUrl: string, otherUrl: string, origin: string -> Option<string>)
    requires origin(currentUrl).Some? && Text.StartsWith(origin(currentUrl).value, "http")
    ensures var r := BuildFullUrl(routeUrl, currentUrl, origin);
      r.Ok? && BuildFullUrl(r.value, otherUrl, origin) == r
  {
    var r := BuildFullUrl(routeUrl, currentUrl, origin);
    if !Text.StartsWith(routeUrl, "http") {
      var o := origin(currentUrl).value;
      assert (o + routeUrl)[..4] == o[..4];
    }
  }

  // ---------------------------------------------------------------------------
  // Settings and quality

  /** The settings the utility reads from sync storage. */
  const CaptureKeys: seq<string> := ["screenshotQuality", "waitTime", "captureFullPage", "excludeHiddenElements"]

  /** The capture quality for the `screenshotQuality` setting. */
  function Quality(q: Option<Options.Setting>): (r: nat)
    ensures 60 <= r <= 100
    ensures r == 90 <==> q !in {Some(Options.Text("high")), Some(Options.Text("medium")), Some(Options.Text("low"))}
    ensures q == Some(Options.Text("high")) <==> r == 100
  {
    match q
    case Some(Text("high")) => 100
    case Some(Text("medium")) => 80
    case Some(Text("low")) => 60
    case _ => 90
  }

  // ---------------------------------------------------------------------------
  // The full-page plan

  datatype Dimensions = Dimensions(viewportHeight: nat, pageHeight: nat)

  /**
   * `Math.ceil(pageHeight / viewportHeight)`; a zero viewport over a zero
   * page is NaN, which takes no capture. A zero viewport over a non-empty
   * page (infinitely many captures) is excluded.
   */
  function CaptureCount(d: Dimensions): nat
    requires d.viewportHeight > 0 || d.pageHeight == 0
  {
    if d.viewportHeight == 0 then 0 else (d.pageHeight + d.viewportHeight - 1) / d.viewportHeight
  }

  /** The captures cover the page, and the last of them starts inside it. */
  lemma CaptureCountCovers(d: Dimensions)
    requires d.viewportHeight > 0
    ensures var n, v := CaptureCount(d), d.viewportHeight;
      && n * v >= d.pageHeight
      && (d.pageHeight > 0 ==> n > 0 && (n - 1) * v < d.pageHeight)
      && (d.pageHeight == 0 ==> n == 0)
  {
    var n: int, v: int, h: int := CaptureCount(d), d.viewportHeight, d.pageHeight;
    var x := h + v - 1;
    assert x == n * v + x % v;
    assert (n - 1) * v == n * v - v;
  }

  /** One capture of the plan: its data, its scroll offset, and whether it is the last. */
  datatype Shot = Shot(data: string, position: nat, isLast: bool)

  /** The index of the first capture from `i` on that fails, or `n`. */
  function FirstFailure(shot: nat -> Result<string>, i: nat, n: nat): (k: nat)
    requires i <= n
    ensures i <= k <= n
    ensures k < n ==> shot(k).Err?
    ensures forall j :: i <= j < k ==> shot(j).Ok?
    decreases n - i
  {
    if i == n || shot(i).Err? then i else FirstFailure(shot, i + 1, n)
  }

  /** Capture `i` of `n`, taken at scroll offset `i * viewportHeight`. */
  function PlannedShot(d: Dimensions, shot: nat -> Result<string>, i: nat, n: nat): Shot
    requires shot(i).Ok?
  {
    Shot(shot(i).value, i * d.viewportHeight, i == n - 1)
  }

  /**
   * What the full-page capture returns: the first slice when every capture
   * succeeded, and the visible-area capture when the dimensions are missing,
   * the plan is empty, or anything along the way throws.
   */
  function FullPage(dims: Result<Option<Dimensions>>, shot: nat -> Result<string>, visible: Result<string>): (r: Result<string>)
    requires dims.Ok? && dims.value.Some? ==> dims.value.value.viewportHeight > 0 || dims.value.value.pageHeight == 0
    ensures r != visible ==> r.Ok? && r == shot(0)
  {
    if dims.Err? || dims.value.None? then visible
    else
      var n := CaptureCount(dims.value.value);
      if n == 0 || FirstFailure(shot, 0, n) < n then visible else shot(0)
  }

  /** A full page taller than one viewport still returns only its first slice: nothing is stitched. */
  lemma FullPageIsFirstSlice(d: Dimensions, shot: nat -> Result<string>, visible: Result<string>)
    requires d.viewportHeight > 0 && d.pageHeight > 0
    requires forall j :: 0 <= j < CaptureCount(d) ==> shot(j).Ok?
    ensures FullPage(Ok(Some(d)), shot, visible) == shot(0)
  {
    CaptureCountCovers(d);
  }

  /**
   * The capture loop of `captureFullPageScreenshot`: one scroll and capture
   * per viewport height, stopping at the first failure.
   */
  method CaptureFullPage(dims: Result<Option<Dimensions>>, shot: nat -> Result<string>, visible: Result<string>)
    returns (r: Result<string>, shots: seq<Shot>)
    requires dims.Ok? && dims.value.Some? ==> dims.value.value.viewportHeight > 0 || dims.value.value.pageHeight == 0
    ensures r == FullPage(dims, shot, visible)
    ensures dims.Ok? && dims.value.Some? ==>
      var d := dims.value.value;
      var n := CaptureCount(d);
      && |shots| == FirstFailure(shot, 0, n)
      && forall j :: 0 <= j < |shots| ==> shot(j).Ok? && shots[j] == PlannedShot(d, shot, j, n)
  {
    shots := [];
    if dims.Err? || dims.value.None? {
      return visible, shots;
    }
    var d := dims.value.value;
    var n := CaptureCount(d);
    var i := 0;
    while i < n
      invariant i <= FirstFailure(shot, 0, n)
      invariant |shots| == i
      invariant forall j :: 0 <= j < i ==> shot(j).Ok? && shots[j] == PlannedShot(d, shot, j, n)
    {
      var screenshot := shot(i);
      if screenshot.Err? {
        return visible, shots;
      }
      shots := shots + [Shot(screenshot.value, i * d.viewportHeight, i == n - 1)];
      i := i + 1;
    }
    if |shots| == 0 {
      return visible, shots;
    }
    r := Ok(shots[0].data);
  }

  /** Every slice of a completed plan starts inside the page, the offsets rise by a viewport each, and only the last is flagged. */
  lemma PlanShape(d: Dimensions, shot: nat -> Result<string>, i: nat)
    requires d.viewportHeight > 0 && i < CaptureCount(d) && shot(i).Ok?
    ensures var s, n := PlannedShot(d, shot, i, CaptureCount(d)), CaptureCount(d);
      && s.position < d.pageHeight
      && (s.isLast <==> i == n - 1)
      && (i > 0 ==> s.position == (i - 1) * d.viewportHeight + d.viewportHeight)
  {
    CaptureCountCovers(d);
    MulMono(i, CaptureCount(d) - 1, d.viewportHeight);
  }

  // ---------------------------------------------------------------------------
  // Capturing a route

  /** How the browser answers for one route. */
  datatype Browser = Browser(
    tabs: seq<Tab>,
    origin: string -> Option<string>,
    navigation: Option<string>,
    dims: Result<Option<Dimensions>>,
    shot: nat -> Result<string>,
    visible: Result<string>,
    metadata: Option<map<string, string>>)

  /** The page reports a usable plan: a zero viewport comes only with a zero page. */
  predicate SaneDims(b: Browser)
  {
    b.dims.Ok? && b.dims.value.Some? ==> b.dims.value.value.viewportHeight > 0 || b.dims.value.value.pageHeight == 0
  }

  /** `captureScreenshot`: the full page when the setting is truthy, else the visible area; errors are prefixed. */
  function CaptureScreenshot(settings: map<string, Options.Setting>, b: Browser): (r: Result<string>)
    requires SaneDims(b)
    ensures r.Err? ==> Text.StartsWith(r.error, "Screenshot capture failed: ")
  {
    var shot := if Options.Truthy(Options.Get(settings, "captureFullPage")) then FullPage(b.dims, b.shot, b.visible) else b.visible;
    match shot
    case Ok(data) => Ok(data)
    case Err(e) => Err("Screenshot capture failed: " + e)
  }

  datatype CaptureResult =
    | Captured(route: Route, screenshot: string, metadata: map<string, string>)
    | CaptureFailed(route: Route, error: string)

  /**
   * `captureRoute`: find the tab, resolve the url, navigate when the tab is
   * elsewhere, capture, and read the metadata (an empty object when there is
   * none). Any error becomes a failed result; nothing is thrown.
   */
  function RouteCapture(route: Route, settings: map<string, Options.Setting>, b: Browser): (r: CaptureResult)
    requires SaneDims(b)
    ensures r.route == route
    ensures b.tabs == [] ==> r == CaptureFailed(route, NoTabMessage)
    ensures r.Captured? ==> b.tabs != [] && CaptureScreenshot(settings, b) == Ok(r.screenshot)
  {
    match GetCurrentTab(b.tabs)
    case Err(e) => CaptureFailed(route, e)
    case Ok(tab) =>
      match BuildFullUrl(route.url, tab.url, b.origin)
      case Err(e) => CaptureFailed(route, e)
      case Ok(target) =>
        if tab.url != target && b.navigation.Some? then CaptureFailed(route, b.navigation.value)
        else
          match CaptureScreenshot(settings, b)
          case Err(e) => CaptureFailed(route, e)
          case Ok(data) => Captured(route, data, if b.metadata.Some? then b.metadata.value else map[])
  }

  /** A route already shown in the tab is captured without navigating: a navigation failure cannot affect it. */
  lemma NoNavigationWhenThere(route: Route, settings: map<string, Options.Setting>, b: Browser, err: string)
    requires SaneDims(b) && b.tabs != [] && b.tabs[0].url == route.url && Text.StartsWith(route.url, "http")
    ensures RouteCapture(route, settings, b) == RouteCapture(route, settings, b.(navigation := Some(err)))
  {
  }

  // ---------------------------------------------------------------------------
  // Capturing several routes

  /** One progress report: the route number, the total, the percentage and the route's url. */
  datatype ProgressReport = ProgressReport(current: nat, total: nat, percentage: nat, currentRoute: string)

  /** The reports of a run over `routes`: one before each route, counting from 1. */
  function Reports(routes: seq<Route>): (ps: seq<ProgressReport>)
    ensures |ps| == |routes|
    ensures forall i :: 0 <= i < |routes| ==> ps[i] == ProgressReport(i + 1, |routes|, RoundPercent(i + 1, |routes|), routes[i].url)
  {
    seq(|routes|, i requires 0 <= i < |routes| => ProgressReport(i + 1, |routes|, RoundPercent(i + 1, |routes|), routes[i].url))
  }

  /** The reported percentages never decrease, stay within 0..100, and the last is 100. */
  lemma ReportsRise(routes: seq<Route>)
    requires routes != []
    ensures var ps := Reports(routes);
      && (forall i, j :: 0 <= i <= j < |ps| ==> ps[i].percentage <= ps[j].percentage <= 100)
      && ps[|ps| - 1].percentage == 100
  {
    var ps, n := Reports(routes), |routes|;
    forall i, j | 0 <= i <= j < |ps|
      ensures ps[i].percentage <= ps[j].percentage <= 100
    {
      PercentMonotone(i + 1, j + 1, n);
      PercentBounded(j + 1, n);
    }
    PercentEnds(n);
  }

  class ScreenshotCapture {
    /** The settings last read from sync storage; null before the first read. */
    var settings: Option<map<string, Options.Setting>>

    constructor()
      ensures settings == None
    {
      settings := None;
    }

    /** `init`: read the capture settings. */
    method Init(stored: map<string, Options.Setting>)
      modifies this
      ensures settings == Some(Options.Restrict(stored, CaptureKeys))
    {
      settings := Some(Options.Restrict(stored, CaptureKeys));
    }

    /** Read the settings, then capture the route. */
    method CaptureRoute(route: Route, stored: map<string, Options.Setting>, b: Browser) returns (r: CaptureResult)
      requires SaneDims(b)
      modifies this
      ensures settings == Some(Options.Restrict(stored, CaptureKeys))
      ensures r == RouteCapture(route, Options.Restrict(stored, CaptureKeys), b)
    {
      Init(stored);
      r := RouteCapture(route, settings.value, b);
    }

    /**
     * Capture each route in order: a progress report before each (when a
     * listener was given), one result per route, and a pause between
     * consecutive routes only.
     */
    method CaptureMultipleRoutes(routes: seq<Route>, stored: map<string, Options.Setting>, browsers: nat -> Browser, listening: bool)
      returns (results: seq<CaptureResult>, reports: seq<ProgressReport>, pauses: nat)
      requires forall i :: 0 <= i < |routes| ==> SaneDims(browsers(i))
      modifies this
      ensures |results| == |routes|
      ensures forall i :: 0 <= i < |routes| ==> results[i] == RouteCapture(routes[i], Options.Restrict(stored, CaptureKeys), browsers(i))
      ensures reports == if listening then Reports(routes) else []
      ensures pauses == if routes == [] then 0 else |routes| - 1
    {
      results, reports, pauses := [], [], 0;
      var total := |routes|;
      ghost var want := Options.Restrict(stored, CaptureKeys);
      ghost var all := Reports(routes);
      var i := 0;
      while i < |routes|
        invariant i <= |routes|
        invariant |results| == i
        invariant forall j :: 0 <= j < i ==> results[j] == RouteCapture(routes[j], want, browsers(j))
        invariant reports == if listening then all[..i] else []
        invariant pauses == if i == |routes| && i > 0 then i - 1 else i
      {
        var route := routes[i];
        if listening {
          assert all[..i + 1] == all[..i] + [all[i]];
          reports := reports + [ProgressReport(i + 1, total, RoundPercent(i + 1, total), route.url)];
        }
        var result := CaptureRoute(route, stored, browsers(i));
        assert result == RouteCapture(routes[i], want, browsers(i));
        results := results + [result];
        if i < |routes| - 1 {
          pauses := pauses + 1;
        }
        i := i + 1;
      }
      if listening {
        Collections.PrefixFull(all, i);
      }
    }
  }

  // ---------------------------------------------------------------------------
  // getDataUrlSize

  /**
   * `Math.round(len * 3 / 4)` of the part between the first and second
   * comma; a url without a comma reads `undefined.length` and throws.
   */
  function DataUrlSize(dataUrl: string): (r: Option<nat>)
    ensures r.Some? <==> ',' in dataUrl
  {
    var parts := Text.Split(dataUrl, {','});
    if |parts| < 2 then
      SplitNoSeparator(dataUrl);
      None
    else
      SplitHasSeparator(dataUrl);
      Some((3 * |parts[1]| + 2) / 4)
  }

  lemma {:induction false} SplitNoSeparator(s: string)
    requires |Text.Split(s, {','})| < 2
    ensures ',' !in s
    decreases |s|
  {
    if s != [] {
      SplitNoSeparator(s[1..]);
    }
  }

  lemma {:induction false} SplitHasSeparator(s: string)
    requires |Text.Split(s, {','})| >= 2
    ensures ',' in s
    decreases |s|
  {
    if s != [] && s[0] != ',' {
      SplitHasSeparator(s[1..]);
    }
  }

  const PngDataUrlPrefix := "data:image/png;base64"

  /**
   * On a PNG data URL whose payload has no padding, the size read is the
   * number of characters the payload encodes.
   */
  lemma DataUrlSizeOfPayload(b: string)
    requires Base64.IsLatin1(b) && |b| % 3 == 0
    ensures DataUrlSize(PngDataUrlPrefix + "," + Base64.Btoa(b).value) == Some(|b|)
  {
    var e := Base64.Btoa(b).value;
    assert ',' !in e by {
      forall i | 0 <= i < |e|
        ensures e[i] != ','
      {
        assert Base64.IsSym(e[i]) || e[i] == '=';
      }
    }
    assert ',' !in PngDataUrlPrefix;
    SplitOnce(PngDataUrlPrefix, e);
    var m := |b| / 3;
    assert |b| == 3 * m && (|b| + 2) / 3 == m;
    assert |e| == 4 * m;
    assert (3 * (4 * m) + 2) / 4 == 3 * m;
  }

  /** Splitting at the one comma of `a,c` gives `a` and `c`. */
  lemma {:induction false} SplitOnce(a: string, c: string)
    requires ',' !in a && ',' !in c
    ensures Text.Split(a + "," + c, {','}) == [a, c]
    decreases |a|
  {
    var s := a + "," + c;
    if a == [] {
      assert s[0] == ',' && s[1..] == c;
      SplitNone(c);
    } else {
      assert s[0] == a[0] && s[1..] == a[1..] + "," + c;
      SplitOnce(a[1..], c);
      assert [a[0]] + a[1..] == a;
    }
  }

  /** A string without a comma splits into itself. */
  lemma {:induction false} SplitNone(c: string)
    requires ',' !in c
    ensures Text.Split(c, {','}) == [c]
    decreases |c|
  {
    if c != [] {
      SplitNone(c[1..]);
      assert [c[0]] + c[1..] == c;
    }
  }
}
