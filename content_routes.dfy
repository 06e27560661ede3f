/**
 * Route discovery in the content script, as pure functions over an abstract
 * page: route ids and titles, the href filter of the static-link pass, the
 * router-literal scanner of the single-page-application pass, the
 * navigation-menu pass, and the `Sitemap:` lines of a robots.txt file
 * (the sitemap extension of section 2.2.4 of RFC 9309).
 *
 * A pass over the page is a list of steps, each inserting one route into
 * the detector's set, skipping a link, or throwing; a throw ends the pass.
 */
module ContentRoutes {
  import opened Wrappers
  import Text
  import Base64
  import Collections

  // ---------------------------------------------------------------------------
  // generateRouteId

  /**
   * `btoa(path)` with every non-alphanumeric character removed, cut to ten
   * characters; `None` where `btoa` throws on a character above U+00FF.
   */
  function RouteId(path: string): (r: Option<string>)
    ensures r.Some? <==> Base64.IsLatin1(path)
    ensures r.Some? ==> |r.value| <= 10
    ensures r.Some? ==> forall i :: 0 <= i < |r.value| ==> Text.IsAlnum(r.value[i])
  {
    match Base64.Btoa(path)
    case None => None
    case Some(e) => Some(Text.Take(Text.KeepAlnum(e), 10))
  }

  lemma {:induction false} KeepAlnumConcat(s: string, t: string)
    ensures Text.KeepAlnum(s + t) == Text.KeepAlnum(s) + Text.KeepAlnum(t)
    decreases |s|
  {
    if s == [] {
      assert s + t == t;
    } else {
      assert (s + t)[0] == s[0];
      assert (s + t)[1..] == s[1..] + t;
      KeepAlnumConcat(s[1..], t);
    }
  }

  /** The id of `a + t`, for `a` made of whole three-character groups, is read off the two encodings. */
  lemma RouteIdExtends(a: string, t: string)
    requires Base64.IsLatin1(a) && Base64.IsLatin1(a + t) && |a| % 3 == 0
    ensures Base64.IsLatin1(t)
    ensures RouteId(a + t) == Some(Text.Take(Text.KeepAlnum(Base64.Btoa(a).value) + Text.KeepAlnum(Base64.Btoa(t).value), 10))
  {
    assert Base64.IsLatin1(t) by {
      forall i | 0 <= i < |t| ensures t[i] as int < 256 {
        assert t[i] == (a + t)[|a| + i];
      }
    }
    Base64.BtoaConcat(a, t);
    var ea, et := Base64.Btoa(a).value, Base64.Btoa(t).value;
    KeepAlnumConcat(ea, et);
  }

  /**
   * The id sees only the start of the path: two paths that share a prefix of
   * whole three-character groups whose encoding already holds ten
   * alphanumerics get the same id, whatever follows.
   */
  lemma RouteIdPrefix(a: string, c: string, d: string)
    requires Base64.IsLatin1(a) && Base64.IsLatin1(a + c) && Base64.IsLatin1(a + d) && |a| % 3 == 0
    requires |Text.KeepAlnum(Base64.Btoa(a).value)| >= 10
    ensures RouteId(a + c) == RouteId(a + d)
  {
    var k := Text.KeepAlnum(Base64.Btoa(a).value);
    RouteIdExtends(a, c);
    RouteIdExtends(a, d);
    assert (k + Text.KeepAlnum(Base64.Btoa(c).value))[..10] == k[..10];
    assert (k + Text.KeepAlnum(Base64.Btoa(d).value))[..10] == k[..10];
  }

  const ProductsPrefix := "/products"
  const ProductsBytes: seq<nat> := [47, 112, 114, 111, 100, 117, 99, 116, 115]
  const ProductsSextets: seq<nat> := [11, 55, 1, 50, 27, 54, 17, 53, 24, 55, 17, 51]

  lemma ProductsCodes()
    ensures Base64.Codes(ProductsPrefix) == ProductsBytes
  {
  }

  lemma ProductsEncodeBytes()
    ensures Base64.AllBytes(ProductsBytes) && Base64.EncodeBytes(ProductsBytes) == ProductsSextets
  {
    var b := ProductsBytes;
    var b1, b2 := b[3..], b[6..];
    assert b1 == [111, 100, 117, 99, 116, 115] && b1[3..] == b2 == [99, 116, 115] && b2[3..] == [];
    var e2 := Base64.EncodeBytes(b2);
    assert e2 == Base64.Sextets(99, 116, 115) + Base64.EncodeBytes([]) == [24, 55, 17, 51];
    var e1 := Base64.EncodeBytes(b1);
    assert e1 == Base64.Sextets(111, 100, 117) + e2 == [27, 54, 17, 53, 24, 55, 17, 51];
    assert Base64.EncodeBytes(b) == Base64.Sextets(47, 112, 114) + e1;
  }

  lemma SymsAlnum(vs: seq<nat>)
    requires forall i :: 0 <= i < |vs| ==> vs[i] < 62
    ensures forall i :: 0 <= i < |vs| ==> Text.IsAlnum(Base64.Syms(vs)[i])
  {
  }

  lemma ProductsLatin1()
    ensures Base64.IsLatin1(ProductsPrefix)
  {
    ProductsCodes();
    forall i | 0 <= i < |ProductsPrefix|
      ensures ProductsPrefix[i] as int < 256
    {
      assert ProductsPrefix[i] as int == ProductsBytes[i];
    }
  }

  lemma ProductsSextetsSmall()
    ensures forall i :: 0 <= i < |ProductsSextets| ==> ProductsSextets[i] < 62
  {
  }

  /** `btoa("/products")` is twelve alphanumerics (it is "L3Byb2R1Y3Rz"). */
  lemma ProductsEncoding()
    ensures Base64.IsLatin1(ProductsPrefix)
    ensures |Text.KeepAlnum(Base64.Btoa(ProductsPrefix).value)| == 12
  {
    ProductsLatin1();
    ProductsCodes();
    ProductsEncodeBytes();
    ProductsSextetsSmall();
    var e := Base64.Syms(ProductsSextets);
    SymsAlnum(ProductsSextets);
    assert Base64.Btoa(ProductsPrefix).value == e;
    Text.KeepAlnumOfAlnum(e);
  }

  /** "/products/1" and "/products/2". */
  const FirstProduct := ProductsPrefix + "/1"
  const SecondProduct := ProductsPrefix + "/2"

  lemma ProductsLength()
    ensures |ProductsPrefix| % 3 == 0
  {
    assert |ProductsPrefix| == 9;
  }

  /** Two different tails after such a prefix give two different paths with one id. */
  lemma SharedPrefixCollision(a: string, c: string, d: string)
    requires Base64.IsLatin1(a) && Base64.IsLatin1(c) && Base64.IsLatin1(d) && |a| % 3 == 0
    requires |Text.KeepAlnum(Base64.Btoa(a).value)| >= 10 && c != d
    ensures a + c != a + d
    ensures RouteId(a + c) == RouteId(a + d) != None
  {
    assert (a + c)[|a|..] == c && (a + d)[|a|..] == d;
    Base64.Latin1Concat(a, c);
    Base64.Latin1Concat(a, d);
    RouteIdPrefix(a, c, d);
  }

  lemma TailsLatin1()
    ensures Base64.IsLatin1("/1") && Base64.IsLatin1("/2") && "/1" != "/2"
  {
    assert "/1"[1] != "/2"[1];
  }

  /**
   * As written: "/products/1" and "/products/2" get the same id, so the two
   * routes share one selection entry and one stored analysis.
   */
  lemma RouteIdCollision()
    ensures FirstProduct != SecondProduct
    ensures RouteId(FirstProduct) == RouteId(SecondProduct) != None
  {
    ProductsEncoding();
    ProductsLength();
    TailsLatin1();
    SharedPrefixCollision(ProductsPrefix, "/1", "/2");
  }

  // ---------------------------------------------------------------------------
  // formatRouteTitle

  const TitleSeparator := " > "
  const HomeTitle := "Home"

  /** The non-empty '/'-separated segments of a path. */
  function Segments(path: string): (r: seq<string>)
    ensures forall k :: 0 <= k < |r| ==> r[k] != "" && '/' !in r[k]
  {
    Text.NonEmpty(Text.Split(path, {'/'}))
  }

  lemma {:induction false} JoinNonEmpty(parts: seq<string>, sep: string)
    requires parts != [] && parts[0] != ""
    ensures Text.Join(parts, sep) != ""
    ensures Text.StartsWith(Text.Join(parts, sep), parts[0])
  {
    if |parts| > 1 {
      var j := Text.Join(parts, sep);
      assert j == parts[0] + (sep + Text.Join(parts[1..], sep));
      assert j[..|parts[0]|] == parts[0];
    }
  }

  /**
   * `formatRouteTitle`: the segments, each with its first character
   * upper-cased, joined by " > "; "Home" when there is no segment.
   */
  function RouteTitle(path: string): (r: string)
    ensures r != ""
    ensures Segments(path) == [] ==> r == HomeTitle
    ensures Segments(path) != [] ==> Text.StartsWith(r, Text.Capitalize(Segments(path)[0]))
  {
    var parts := Text.CapitalizeAll(Segments(path));
    if parts == [] then HomeTitle
    else
      JoinNonEmpty(parts, TitleSeparator);
      Text.Join(parts, TitleSeparator)
  }

  lemma {:induction false} SplitSnocSeparator(s: string, c: char)
    ensures Text.Split(s + [c], {c}) == Text.Split(s, {c}) + [""]
    decreases |s|
  {
    if s == [] {
      assert Text.Split([c], {c}) == [""] + Text.Split([], {c});
    } else {
      assert (s + [c])[1..] == s[1..] + [c];
      SplitSnocSeparator(s[1..], c);
    }
  }

  lemma {:induction false} NonEmptySnocEmpty(parts: seq<string>)
    ensures Text.NonEmpty(parts + [""]) == Text.NonEmpty(parts)
    decreases |parts|
  {
    if parts != [] {
      assert (parts + [""])[1..] == parts[1..] + [""];
      NonEmptySnocEmpty(parts[1..]);
    }
  }

  /** Leading, trailing and repeated slashes do not change the title. */
  lemma TitleIgnoresSlashes(path: string)
    ensures RouteTitle("/" + path) == RouteTitle(path)
    ensures RouteTitle(path + "/") == RouteTitle(path)
  {
    assert ("/" + path)[1..] == path;
    SplitSnocSeparator(path, '/');
    NonEmptySnocEmpty(Text.Split(path, {'/'}));
  }

  /** A path without slashes is its own single segment, capitalised. */
  lemma TitleOfSegment(path: string)
    requires path != "" && '/' !in path
    ensures RouteTitle(path) == Text.Capitalize(path)
  {
    SplitNoSeparator(path, '/');
  }

  lemma {:induction false} SplitNoSeparator(s: string, c: char)
    requires c !in s
    ensures Text.Split(s, {c}) == [s]
    decreases |s|
  {
    if s != [] {
      SplitNoSeparator(s[1..], c);
      assert s[0] != c;
      assert [s[0]] + s[1..] == s;
    }
  }

  // ---------------------------------------------------------------------------
  // The page, as the passes see it

  /** A url as `new URL` presents it. */
  datatype Url = Url(origin: string, pathname: string, search: string, href: string)

  /** `getElementInfo` of a link: tag name, class, id and the first 100 characters of its text. */
  datatype ElementInfo = ElementInfo(tagName: string, className: string, id: string, text: string)

  /** An `a[href]` element: its `href` attribute, its text, what it is, and its enclosing context. */
  datatype Link = Link(href: Option<string>, text: string, info: ElementInfo, context: string)

  /** `getNavigationContext`: the menu's tag, class and whether it sits in the header, the footer or the content. */
  datatype NavContext = NavContext(tagName: string, className: string, position: string)

  /** A link inside a navigation menu, in the order the menu selectors visit them. */
  datatype NavLink = NavLink(href: Option<string>, text: string, nav: NavContext)

  /**
   * The document: its origin and address, `new URL(href, base)` (None where
   * it throws), the anchors, the script texts and the menu links.
   */
  datatype Page = Page(
    origin: string,
    href: string,
    resolve: (string, Option<string>) -> Option<Url>,
    links: seq<Link>,
    scripts: seq<string>,
    navLinks: seq<NavLink>)

  datatype RouteKind =
    | Static(element: ElementInfo, context: string)
    | Spa(framework: string, isDynamic: bool)
    | Sitemap
    | Navigation(navContext: NavContext)

  /**
   * A detected route. The detector keeps `JSON.stringify` of each; two routes
   * serialise alike exactly when they are equal, so the set holds values.
   */
  datatype DetectedRoute = DetectedRoute(id: string, url: string, fullUrl: string, title: string, kind: RouteKind)

  /** One step of a pass: insert a route, skip an element, or throw. */
  datatype Step = Insert(route: DetectedRoute) | Skip | Throw

  /** The routes a pass inserts, up to the first throw. */
  function Inserted(steps: seq<Step>): (r: seq<DetectedRoute>)
    ensures |r| <= |steps|
    ensures forall x :: x in r ==> Insert(x) in steps
  {
    if steps == [] || steps[0].Throw? then []
    else if steps[0].Insert? then [steps[0].route] + Inserted(steps[1..])
    else Inserted(steps[1..])
  }

  /** A pass without a throw inserts every route it meets. */
  lemma {:induction false} InsertedAll(steps: seq<Step>, x: DetectedRoute)
    requires Throw !in steps && Insert(x) in steps
    ensures x in Inserted(steps)
  {
    if steps[0] != Insert(x) {
      InsertedAll(steps[1..], x);
    }
  }

  lemma {:induction false} InsertedConcat(a: seq<Step>, b: seq<Step>)
    requires Throw !in a
    ensures Inserted(a + b) == Inserted(a) + Inserted(b)
  {
    if a == [] {
      assert a + b == b;
    } else {
      assert (a + b)[0] == a[0];
      assert (a + b)[1..] == a[1..] + b;
      InsertedConcat(a[1..], b);
    }
  }

  // ---------------------------------------------------------------------------
  // findStaticRoutes

  const AnchorPrefix := "#"
  const MailtoPrefix := "mailto:"
  const TelPrefix := "tel:"

  /**
   * Where an href leads, when it is kept: a '/'-relative href against the
   * origin, an "http" href that resolves to the same origin, or any other
   * href except an anchor, mailto or tel link that resolves, against the
   * page's address, to the same origin.
   */
  function ResolveHref(href: string, page: Page): (r: Option<Url>)
    ensures Text.StartsWith(href, AnchorPrefix) || Text.StartsWith(href, MailtoPrefix) || Text.StartsWith(href, TelPrefix) ==> r.None?
    ensures r.Some? && !Text.StartsWith(href, "/") ==> r.value.origin == page.origin
    ensures Text.StartsWith(href, "/") ==> r == page.resolve(href, Some(page.origin))
  {
    if Text.StartsWith(href, "/") then page.resolve(href, Some(page.origin))
    else if Text.StartsWith(href, "http") then
      match page.resolve(href, None)
      case Some(u) => if u.origin == page.origin then Some(u) else None
      case None => None
    else if !Text.StartsWith(href, AnchorPrefix) && !Text.StartsWith(href, MailtoPrefix) && !Text.StartsWith(href, TelPrefix) then
      match page.resolve(href, Some(page.href))
      case Some(u) => if u.origin == page.origin then Some(u) else None
      case None => None
    else None
  }

  /** `textContent?.trim() || fallback`. */
  function TitleOr(text: string, fallback: string): string
  {
    var t := Text.Trim(text);
    if t != "" then t else fallback
  }

  /**
   * The step for one anchor: skipped when its href is missing or empty, is
   * filtered out, or its path makes `btoa` throw (the pass catches that);
   * else a static route for the path and query.
   */
  function StaticStep(link: Link, page: Page): (r: Step)
    ensures !r.Throw?
    ensures r.Insert? <==>
      link.href.Some? && link.href.value != "" && ResolveHref(link.href.value, page).Some?
      && Base64.IsLatin1(ResolveHref(link.href.value, page).value.pathname)
    ensures r.Insert? ==>
      var u := ResolveHref(link.href.value, page).value;
      && r.route.url == u.pathname + u.search
      && r.route.fullUrl == u.href
      && r.route.id == RouteId(u.pathname).value
      && r.route.kind == Static(link.info, link.context)
  {
    if link.href.None? || link.href.value == "" then Skip
    else match ResolveHref(link.href.value, page)
      case None => Skip
      case Some(u) =>
        match RouteId(u.pathname)
        case None => Skip
        case Some(id) => Insert(DetectedRoute(id, u.pathname + u.search, u.href, TitleOr(link.text, u.pathname), Static(link.info, link.context)))
  }

  function StaticSteps(links: seq<Link>, page: Page): (r: seq<Step>)
    ensures |r| == |links|
    ensures forall k :: 0 <= k < |links| ==> r[k] == StaticStep(links[k], page)
  {
    if links == [] then [] else [StaticStep(links[0], page)] + StaticSteps(links[1..], page)
  }

  // ---------------------------------------------------------------------------
  // findSPARoutes

  predicate IsQuote(c: char) { c == '"' || c == '\'' }

  /** The first index from `j` on that is not whitespace (`\s*`). */
  function SkipSpaces(s: string, j: nat): (k: nat)
    requires j <= |s|
    ensures j <= k <= |s|
    ensures k < |s| ==> !Text.IsSpace(s[k])
    decreases |s| - j
  {
    if j < |s| && Text.IsSpace(s[j]) then SkipSpaces(s, j + 1) else j
  }

  /** The first quote from `j` on, or the end (`[^"']*`). */
  function NextQuote(s: string, j: nat): (k: nat)
    requires j <= |s|
    ensures j <= k <= |s|
    ensures k < |s| ==> IsQuote(s[k])
    ensures forall m :: j <= m < k ==> !IsQuote(s[m])
    decreases |s| - j
  {
    if j < |s| && !IsQuote(s[j]) then NextQuote(s, j + 1) else j
  }

  const PathKey := "path:"

  /**
   * `path:\s*["']([^"']+)["']` matched at `i`: the quoted text and where the
   * match ends. The quoted text is also what the second, unanchored match
   * `["']([^"']+)["']` picks out of the matched text, since nothing before
   * the first quote is a quote.
   */
  function LiteralAt(s: string, i: nat): (r: Option<(string, nat)>)
    requires i <= |s|
    ensures r.Some? ==> i < r.value.1 <= |s| && r.value.0 != ""
    ensures r.Some? ==> forall m :: 0 <= m < |r.value.0| ==> !IsQuote(r.value.0[m])
  {
    if !Text.StartsWith(s[i..], PathKey) then None
    else
      var j := SkipSpaces(s, i + |PathKey|);
      if j == |s| || !IsQuote(s[j]) then None
      else
        var k := NextQuote(s, j + 1);
        if k == |s| || k == j + 1 then None else Some((s[j + 1..k], k + 1))
  }

  /** `{\s*path:…` matched at `i`, for the Angular pattern. */
  function AngularLiteralAt(s: string, i: nat): (r: Option<(string, nat)>)
    requires i <= |s|
    ensures r.Some? ==> i < r.value.1 <= |s| && r.value.0 != ""
    ensures r.Some? ==> forall m :: 0 <= m < |r.value.0| ==> !IsQuote(r.value.0[m])
  {
    if i == |s| || s[i] != '{' then None else LiteralAt(s, SkipSpaces(s, i + 1))
  }

  /**
   * A global regular-expression scan from `i`: at each position try the
   * pattern, and after a match resume where it ended.
   */
  function Scan(s: string, i: nat, angular: bool): (r: seq<string>)
    requires i <= |s|
    ensures forall k :: 0 <= k < |r| ==> r[k] != "" && forall m :: 0 <= m < |r[k]| ==> !IsQuote(r[k][m])
    decreases |s| - i
  {
    if i == |s| then []
    else
      var m := if angular then AngularLiteralAt(s, i) else LiteralAt(s, i);
      match m
      case Some((p, e)) => [p] + Scan(s, e, angular)
      case None => Scan(s, i + 1, angular)
  }

  const ReactRouter := "react-router"
  const VueRouter := "vue-router"
  const AngularRouter := "angular"

  /** `addSPARoute`: throws where `btoa` does, which this pass does not catch. */
  function SpaStep(path: string, framework: string, page: Page): (r: Step)
    ensures r.Throw? <==> !Base64.IsLatin1(path)
    ensures r.Insert? ==> r.route.url == path && r.route.fullUrl == page.origin + path
    ensures r.Insert? ==> r.route.kind.Spa? && r.route.kind.framework == framework
    ensures r.Insert? ==> (r.route.kind.isDynamic <==> ':' in path || '*' in path)
  {
    match RouteId(path)
    case None => Throw
    case Some(id) => Insert(DetectedRoute(id, path, page.origin + path, RouteTitle(path), Spa(framework, ':' in path || '*' in path)))
  }

  function SpaStepsFor(paths: seq<string>, framework: string, page: Page): (r: seq<Step>)
    ensures |r| == |paths|
    ensures forall k :: 0 <= k < |paths| ==> r[k] == SpaStep(paths[k], framework, page)
  {
    if paths == [] then [] else [SpaStep(paths[0], framework, page)] + SpaStepsFor(paths[1..], framework, page)
  }

  /** The three scans of one script: React, then Vue (the same pattern), then Angular. */
  function ScriptSteps(script: string, page: Page): seq<Step>
  {
    var paths := Scan(script, 0, false);
    SpaStepsFor(paths, ReactRouter, page) + SpaStepsFor(paths, VueRouter, page)
      + SpaStepsFor(Scan(script, 0, true), AngularRouter, page)
  }

  function SpaSteps(scripts: seq<string>, page: Page): seq<Step>
  {
    if scripts == [] then [] else ScriptSteps(scripts[0], page) + SpaSteps(scripts[1..], page)
  }

  /**
   * Because the React and Vue patterns are the same, every `path: "…"`
   * literal of a script yields two routes that differ only in the framework.
   */
  lemma LiteralTwice(script: string, page: Page, k: nat)
    requires k < |Scan(script, 0, false)|
    ensures var paths := Scan(script, 0, false);
      var steps := ScriptSteps(script, page);
      && steps[k] == SpaStep(paths[k], ReactRouter, page)
      && steps[|paths| + k] == SpaStep(paths[k], VueRouter, page)
      && (steps[k].Insert? ==>
            && steps[|paths| + k].Insert?
            && steps[k].route != steps[|paths| + k].route
            && steps[k].route == steps[|paths| + k].route.(kind := Spa(ReactRouter, steps[k].route.kind.isDynamic)))
  {
  }

  // ---------------------------------------------------------------------------
  // findNavigationRoutes

  /** A menu link is kept when its href starts with '/'; its `btoa` is not guarded. */
  function NavStep(link: NavLink, page: Page): (r: Step)
    ensures r.Insert? <==> link.href.Some? && Text.StartsWith(link.href.value, "/") && Base64.IsLatin1(link.href.value)
    ensures r.Throw? <==> link.href.Some? && Text.StartsWith(link.href.value, "/") && !Base64.IsLatin1(link.href.value)
    ensures r.Insert? ==> r.route.url == link.href.value && r.route.fullUrl == page.origin + link.href.value
  {
    if link.href.None? || !Text.StartsWith(link.href.value, "/") then Skip
    else
      var href := link.href.value;
      match RouteId(href)
      case None => Throw
      case Some(id) => Insert(DetectedRoute(id, href, page.origin + href, TitleOr(link.text, href), Navigation(link.nav)))
  }

  function NavSteps(links: seq<NavLink>, page: Page): (r: seq<Step>)
    ensures |r| == |links|
    ensures forall k :: 0 <= k < |links| ==> r[k] == NavStep(links[k], page)
  {
    if links == [] then [] else [NavStep(links[0], page)] + NavSteps(links[1..], page)
  }

  /**
   * One `detectRoutes` pass: static links, router literals, then menus. The
   * sitemap fetch it starts is not awaited; its parse is `SitemapSteps`.
   */
  function PassSteps(page: Page): seq<Step>
  {
    StaticSteps(page.links, page) + SpaSteps(page.scripts, page) + NavSteps(page.navLinks, page)
  }

  lemma {:induction false} StaticStepsNoThrow(links: seq<Link>, page: Page)
    ensures Throw !in StaticSteps(links, page)
  {
    if links != [] {
      StaticStepsNoThrow(links[1..], page);
      assert StaticSteps(links, page) == [StaticStep(links[0], page)] + StaticSteps(links[1..], page);
    }
  }

  /** The static-link pass never throws, so every kept anchor is inserted whatever the later passes do. */
  lemma StaticLinksAlwaysInserted(page: Page, k: nat)
    requires k < |page.links| && StaticStep(page.links[k], page).Insert?
    ensures StaticStep(page.links[k], page).route in Inserted(PassSteps(page))
  {
    var st := StaticSteps(page.links, page);
    var rest := SpaSteps(page.scripts, page) + NavSteps(page.navLinks, page);
    StaticStepsNoThrow(page.links, page);
    assert PassSteps(page) == st + rest;
    InsertedConcat(st, rest);
    assert st[k] == StaticStep(page.links[k], page);
    InsertedAll(st, st[k].route);
  }

  // ---------------------------------------------------------------------------
  // parseSitemap

  const SitemapMarker := "Sitemap:"
  const SitemapPrefix := "sitemap:"
  const UrlsetTag := "<urlset"
  const SitemapIndexTag := "<sitemapindex"

  predicate IsSitemapLine(line: string)
  {
    Text.StartsWith(Text.LowerStr(line), SitemapPrefix)
  }

  /** `line.split(':').slice(1).join(':').trim()`. */
  function SitemapReference(line: string): string
  {
    Text.Trim(Text.Join(Text.Split(line, {':'})[1..], ":"))
  }

  lemma {:induction false} SplitAtFirst(p: string, c: char, rest: string)
    requires c !in p
    ensures Text.Split(p + [c] + rest, {c}) == [p] + Text.Split(rest, {c})
    decreases |p|
  {
    if p == [] {
      assert [c] + rest == p + [c] + rest;
      assert ([c] + rest)[1..] == rest;
    } else {
      assert (p + [c] + rest)[0] == p[0];
      assert (p + [c] + rest)[1..] == p[1..] + [c] + rest;
      SplitAtFirst(p[1..], c, rest);
      assert [p[0]] + p[1..] == p;
    }
  }

  /** The reference is everything after the first colon, trimmed: colons inside the url survive. */
  lemma SitemapReferenceIsRest(line: string)
    requires IsSitemapLine(line)
    ensures SitemapReference(line) == Text.Trim(line[8..])
  {
    var low := Text.LowerStr(line);
    assert low[..8] == SitemapPrefix;
    assert forall m :: 0 <= m < 7 ==> line[m] != ':' by {
      forall m | 0 <= m < 7 ensures line[m] != ':' {
        assert low[m] == Text.Lower(line[m]) && low[m] != ':';
      }
    }
    assert line[7] == ':' by {
      assert low[7] == Text.Lower(line[7]) == ':';
    }
    assert line == line[..7] + [':'] + line[8..];
    SplitAtFirst(line[..7], ':', line[8..]);
    Text.JoinSplit(line[8..], ':');
  }

  /** The sitemap references of a robots.txt text: considered only when it holds the case-sensitive marker. */
  function SitemapReferences(content: string): (r: seq<string>)
  {
    if !Text.Contains(content, SitemapMarker) then []
    else
      var lines := Collections.Filter(Text.Split(content, {'\n'}), IsSitemapLine);
      seq(|lines|, k requires 0 <= k < |lines| => SitemapReference(lines[k]))
  }

  /** A sitemap `loc`: kept when it parses, with the title of its path. */
  function SitemapStep(loc: string, page: Page): (r: Step)
    ensures !r.Throw?
    ensures r.Insert? <==> page.resolve(loc, None).Some? && Base64.IsLatin1(page.resolve(loc, None).value.pathname)
    ensures r.Insert? ==> r.route.fullUrl == loc && r.route.title == RouteTitle(page.resolve(loc, None).value.pathname)
  {
    match page.resolve(loc, None)
    case None => Skip
    case Some(u) =>
      match RouteId(u.pathname)
      case None => Skip
      case Some(id) => Insert(DetectedRoute(id, u.pathname + u.search, loc, RouteTitle(u.pathname), Sitemap))
  }

  /**
   * The XML part of `parseSitemap`: `locs` are the texts of the `url > loc`
   * elements the XML parser finds; they are read only when the content
   * looks like a url set or a sitemap index.
   */
  function SitemapSteps(content: string, locs: seq<string>, page: Page): (r: seq<Step>)
    ensures Throw !in r
    ensures !Text.Contains(content, UrlsetTag) && !Text.Contains(content, SitemapIndexTag) ==> r == []
    ensures |r| <= |locs|
  {
    if !Text.Contains(content, UrlsetTag) && !Text.Contains(content, SitemapIndexTag) then []
    else seq(|locs|, k requires 0 <= k < |locs| => SitemapStep(locs[k], page))
  }
}
