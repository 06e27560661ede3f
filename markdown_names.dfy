/**
 * The naming and threshold helpers of the Markdown generator: route names,
 * section titles, component names, heading anchors, the complexity and
 * priority levels of a component analysis, and the tables that turn an
 * element or prop name into a prop, a prop description or an HTML tag.
 */
module MarkdownNames {
  import opened Wrappers
  import Text

  // ---------------------------------------------------------------------------
  // getRouteName

  /**
   * What `getRouteName` may be handed: nothing (or another falsy value),
   * `null` (whose `typeof` is 'object'), a path, or a route record whose
   * `url`, `fullUrl` and `href` fields may be missing.
   */
  datatype RouteRef =
    | Absent
    | Null
    | Path(path: string)
    | Record(url: Option<string>, fullUrl: Option<string>, href: Option<string>)

  const HomeName := "Home"
  const UnknownName := "Unknown"
  const RouteSeparator := " > "

  predicate Truthy(s: Option<string>)
  {
    s.Some? && s.value != ""
  }

  /** `routeUrl?.url || routeUrl?.fullUrl || routeUrl?.href || 'Unknown'`. */
  function RecordUrl(url: Option<string>, fullUrl: Option<string>, href: Option<string>): (r: string)
    ensures r != ""
  {
    if Truthy(url) then url.value
    else if Truthy(fullUrl) then fullUrl.value
    else if Truthy(href) then href.value
    else UnknownName
  }

  /** The value `getRouteName` goes on with once an object has been replaced by its url. */
  function RouteText(r: RouteRef): Option<string>
  {
    match r
    case Absent => None
    case Null => Some(RecordUrl(None, None, None))
    case Path(p) => Some(p)
    case Record(u, f, h) => Some(RecordUrl(u, f, h))
  }

  /** The non-empty path segments, each capitalised, joined by " > ". */
  function SegmentsName(path: string): string
  {
    Text.Join(Text.CapitalizeAll(Text.NonEmpty(Text.Split(path, {'/'}))), RouteSeparator)
  }

  function RouteName(r: RouteRef): string
  {
    var u := RouteText(r);
    if u.None? || u.value == "" || u.value == "/" then HomeName else SegmentsName(u.value)
  }

  /** Nothing, the empty path and the root path are all named "Home". */
  lemma RouteNameHome(r: RouteRef)
    ensures r == Absent || r == Path("") || r == Path("/") ==> RouteName(r) == HomeName
    ensures RouteName(r) == HomeName <== RouteText(r).None?
  {
  }

  /**
   * A record is named by its first non-empty url field, or as the path
   * "Unknown" when it has none; `null` is named like a record without fields.
   */
  lemma RouteNameRecord(u: Option<string>, f: Option<string>, h: Option<string>)
    ensures RouteName(Record(u, f, h)) == RouteName(Path(
      if Truthy(u) then u.value else if Truthy(f) then f.value else if Truthy(h) then h.value else UnknownName))
    ensures RouteName(Null) == RouteName(Record(None, None, None)) == RouteName(Path(UnknownName))
  {
  }

  /** A single word without slashes is named by itself, capitalised. */
  lemma RouteNameOfWord(w: string)
    requires w != "" && w != "/" && '/' !in w
    ensures RouteName(Path(w)) == Text.Capitalize(w)
  {
    Text.SplitNoSep(w, {'/'});
    Text.NonEmptyOfNonEmpty([w]);
    assert Text.CapitalizeAll([w]) == [Text.Capitalize(w)];
  }

  /** So `null` and a record without urls are named "Unknown". */
  lemma RouteNameUnknown()
    ensures RouteName(Null) == UnknownName
    ensures RouteName(Record(None, None, None)) == UnknownName
  {
    RouteNameRecord(None, None, None);
    UnknownIsWord();
    RouteNameOfWord(UnknownName);
    CapitalizedAlready(UnknownName);
  }

  /** "Unknown" is one capitalised word without slashes. */
  lemma UnknownIsWord()
    ensures UnknownName != "" && UnknownName != "/" && '/' !in UnknownName && !Text.IsLower(UnknownName[0])
  {
    assert UnknownName == ['U', 'n', 'k', 'n', 'o', 'w', 'n'];
  }

  lemma CapitalizedAlready(w: string)
    requires w != [] && !Text.IsLower(w[0])
    ensures Text.Capitalize(w) == w
  {
    assert Text.Capitalize(w) == [w[0]] + w[1..];
  }

  /**
   * A path `/a/b/c` of non-empty, slash-free segments is named by its
   * segments, each capitalised, in order: "A > B > C".
   */
  lemma RouteNameOfSegments(segments: seq<string>)
    requires segments != []
    requires forall k :: 0 <= k < |segments| ==> segments[k] != "" && '/' !in segments[k]
    ensures RouteName(Path("/" + Text.Join(segments, "/"))) == Text.Join(Text.CapitalizeAll(segments), RouteSeparator)
  {
    var path := "/" + Text.Join(segments, "/");
    SegmentsOfPath(segments);
    assert path != "" && path != "/" by {
      JoinNonEmpty(segments, "/");
    }
  }

  lemma SegmentsOfPath(segments: seq<string>)
    requires segments != []
    requires forall k :: 0 <= k < |segments| ==> segments[k] != "" && '/' !in segments[k]
    ensures Text.NonEmpty(Text.Split("/" + Text.Join(segments, "/"), {'/'})) == segments
  {
    var joined := Text.Join(segments, "/");
    calc {
      Text.Split("/" + joined, {'/'});
      { assert "/" + joined == "" + ['/'] + joined; }
      Text.Split("" + ['/'] + joined, {'/'});
      { Text.SplitAfter("", '/', joined); }
      [""] + Text.Split(joined, {'/'});
      { Text.SplitJoin(segments, '/'); }
      [""] + segments;
    }
    assert ([""] + segments)[1..] == segments;
    Text.NonEmptyOfNonEmpty(segments);
  }

  /** A join whose first part is non-empty is non-empty. */
  lemma JoinNonEmpty(parts: seq<string>, sep: string)
    requires parts != [] && parts[0] != ""
    ensures Text.Join(parts, sep) != ""
  {
  }

  /** A path of two or more slashes only has no segments, and its name is empty. */
  lemma RouteNameOfSlashes(path: string)
    requires |path| >= 2
    requires forall i :: 0 <= i < |path| ==> path[i] == '/'
    ensures RouteName(Path(path)) == ""
  {
    Text.SplitOfSeps(path, {'/'});
    var parts := Text.NonEmpty(Text.Split(path, {'/'}));
    assert forall x :: x in Text.Split(path, {'/'}) ==> x == "";
    assert forall x :: x !in parts;
  }

  // ---------------------------------------------------------------------------
  // formatSectionType and formatSectionName

  /** Split on the separators, capitalise each word, join with spaces. */
  function TitleWords(t: string, seps: set<char>): string
  {
    Text.Join(Text.CapitalizeAll(Text.Split(t, seps)), " ")
  }

  /** `formatSectionType`: words separated by '-'. */
  function FormatSectionType(t: string): string
  {
    TitleWords(t, {'-'})
  }

  /** `formatSectionName`: words separated by '-' or '_'. */
  function FormatSectionName(t: string): string
  {
    TitleWords(t, {'-', '_'})
  }

  /**
   * For a type without spaces the title has one word per separated part of
   * the type (empty parts included), each the part capitalised.
   */
  lemma TitleWordsSplit(t: string, seps: set<char>)
    requires ' ' !in t
    ensures Text.Split(TitleWords(t, seps), {' '}) == Text.CapitalizeAll(Text.Split(t, seps))
  {
    var parts := Text.Split(t, seps);
    var words := Text.CapitalizeAll(parts);
    Text.SplitChars(t, seps);
    forall k | 0 <= k < |words|
      ensures ' ' !in words[k]
    {
      Text.CapitalizeKeeps(parts[k], ' ');
    }
    Text.SplitJoin(words, ' ');
  }

  lemma FormatSectionSpec(t: string)
    requires ' ' !in t
    ensures Text.Split(FormatSectionType(t), {' '}) == Text.CapitalizeAll(Text.Split(t, {'-'}))
    ensures Text.Split(FormatSectionName(t), {' '}) == Text.CapitalizeAll(Text.Split(t, {'-', '_'}))
  {
    TitleWordsSplit(t, {'-'});
    TitleWordsSplit(t, {'-', '_'});
  }

  /** A type without separators is only capitalised. */
  lemma FormatSectionOneWord(t: string)
    requires '-' !in t && '_' !in t
    ensures FormatSectionType(t) == Text.Capitalize(t)
    ensures FormatSectionName(t) == Text.Capitalize(t)
  {
    Text.SplitNoSep(t, {'-'});
    Text.SplitNoSep(t, {'-', '_'});
  }

  // ---------------------------------------------------------------------------
  // generateComponentName

  /** Drop every character that is not an ASCII letter or digit, then upper-case the first. */
  function ComponentName(t: string): string
  {
    Text.Capitalize(Text.KeepAlnum(t))
  }

  lemma ComponentNameSpec(t: string)
    ensures var r := ComponentName(t);
      && |r| == |Text.KeepAlnum(t)|
      && (forall i :: 0 <= i < |r| ==> Text.IsAlnum(r[i]))
      && (r != [] && Text.IsAlpha(r[0]) ==> Text.IsUpper(r[0]))
      && r[1..] == Text.KeepAlnum(t)[1..] <== r != []
  {
  }

  /** Naming a component name again changes nothing. */
  lemma ComponentNameIdempotent(t: string)
    ensures ComponentName(ComponentName(t)) == ComponentName(t)
  {
    var r := ComponentName(t);
    ComponentNameSpec(t);
    Text.KeepAlnumOfAlnum(r);
  }

  // ---------------------------------------------------------------------------
  // generateAnchor

  predicate AnchorChar(c: char)
  {
    Text.IsLower(c) || Text.IsDigit(c)
  }

  /**
   * `.replace(/[^a-z0-9]+/g, '-')`: every maximal run of other characters
   * becomes one '-'; `pending` says a run has just been replaced.
   */
  function Dashes(s: string, pending: bool): (r: string)
    decreases |s|
  {
    if s == [] then []
    else if AnchorChar(s[0]) then [s[0]] + Dashes(s[1..], false)
    else if pending then Dashes(s[1..], true)
    else ['-'] + Dashes(s[1..], true)
  }

  /** `.replace(/^-|-$/g, '')`: one leading and one trailing '-' removed. */
  function TrimDashes(s: string): string
  {
    var t := if s != [] && s[0] == '-' then s[1..] else s;
    if t != [] && t[|t| - 1] == '-' then t[..|t| - 1] else t
  }

  function Anchor(text: string): string
  {
    TrimDashes(Dashes(Text.LowerStr(text), false))
  }

  /** Only [a-z0-9-] and never two '-' in a row. */
  ghost predicate Slug(s: string)
  {
    && (forall i :: 0 <= i < |s| ==> AnchorChar(s[i]) || s[i] == '-')
    && (forall i :: 0 <= i < |s| - 1 ==> !(s[i] == '-' && s[i + 1] == '-'))
  }

  /** An anchor: a slug that neither starts nor ends with '-'. */
  ghost predicate IsAnchor(s: string)
  {
    Slug(s) && (s != [] ==> s[0] != '-' && s[|s| - 1] != '-')
  }

  lemma {:induction false} DashesSlug(s: string, pending: bool)
    ensures Slug(Dashes(s, pending))
    ensures pending && Dashes(s, pending) != [] ==> Dashes(s, pending)[0] != '-'
    decreases |s|
  {
    if s != [] {
      DashesSlug(s[1..], AnchorChar(s[0]) == false);
      if !AnchorChar(s[0]) && pending {
        DashesSlug(s[1..], true);
      } else if !AnchorChar(s[0]) {
        DashesSlug(s[1..], true);
        var rest := Dashes(s[1..], true);
        assert Dashes(s, pending) == ['-'] + rest;
      } else {
        DashesSlug(s[1..], false);
        var rest := Dashes(s[1..], false);
        assert Dashes(s, pending) == [s[0]] + rest;
      }
    }
  }

  lemma TrimDashesAnchor(s: string)
    requires Slug(s)
    ensures IsAnchor(TrimDashes(s))
  {
    var t := if s != [] && s[0] == '-' then s[1..] else s;
    assert Slug(t);
    if s != [] && s[0] == '-' {
      assert t != [] ==> t[0] == s[1];
    }
    assert t != [] ==> t[0] != '-';
    if t != [] && t[|t| - 1] == '-' {
      var u := t[..|t| - 1];
      assert Slug(u);
      assert u != [] ==> u[|u| - 1] == t[|t| - 2] && u[0] == t[0];
    }
  }

  /** `generateAnchor` yields only [a-z0-9-], no "--", and no '-' at either end. */
  lemma AnchorSpec(text: string)
    ensures IsAnchor(Anchor(text))
  {
    DashesSlug(Text.LowerStr(text), false);
    TrimDashesAnchor(Dashes(Text.LowerStr(text), false));
  }

  /** A slug that does not start with '-' after a replaced run passes through unchanged. */
  lemma {:induction false} DashesOfSlug(s: string, pending: bool)
    requires Slug(s)
    requires pending && s != [] ==> s[0] != '-'
    ensures Dashes(s, pending) == s
    decreases |s|
  {
    if s != [] {
      assert Slug(s[1..]);
      if AnchorChar(s[0]) {
        DashesOfSlug(s[1..], false);
      } else {
        assert s[1..] != [] ==> s[1..][0] != '-';
        DashesOfSlug(s[1..], true);
      }
    }
  }

  /** `generateAnchor` is idempotent: an anchor is its own anchor. */
  lemma AnchorIdempotent(text: string)
    ensures Anchor(Anchor(text)) == Anchor(text)
  {
    var a := Anchor(text);
    AnchorSpec(text);
    assert Text.LowerStr(a) == a;
    DashesOfSlug(a, false);
  }

  // ---------------------------------------------------------------------------
  // getComplexityLevel and the priority rule of performDetailedComponentAnalysis

  datatype Level = Low | Medium | High

  function Rank(l: Level): nat
  {
    match l
    case Low => 0
    case Medium => 1
    case High => 2
  }

  /** `getComplexityLevel`: the more reusable and consistent, the less complex. */
  function ComplexityLevel(reusability: int, consistency: int): Level
  {
    var score := reusability + consistency;
    if score >= 150 then Low else if score >= 100 then Medium else High
  }

  /** The priority of a component type from its total usage and best reusability score. */
  function Priority(totalUsage: int, reusability: int): Level
  {
    if totalUsage >= 5 && reusability >= 70 then High
    else if totalUsage >= 3 && reusability >= 50 then Medium
    else Low
  }

  /** Complexity falls as the combined score rises, with steps at 100 and 150. */
  lemma ComplexitySpec(r1: int, c1: int, r2: int, c2: int)
    ensures ComplexityLevel(r1, c1) == Low <==> r1 + c1 >= 150
    ensures ComplexityLevel(r1, c1) == High <==> r1 + c1 < 100
    ensures r1 + c1 <= r2 + c2 ==> Rank(ComplexityLevel(r2, c2)) <= Rank(ComplexityLevel(r1, c1))
  {
  }

  /**
   * "High" exactly when usage reaches 5 and reusability 70; "Medium" when
   * not, but usage reaches 3 and reusability 50; more usage or reusability
   * never lowers the priority.
   */
  lemma PrioritySpec(u1: int, s1: int, u2: int, s2: int)
    ensures Priority(u1, s1) == High <==> u1 >= 5 && s1 >= 70
    ensures Priority(u1, s1) == Medium <==> !(u1 >= 5 && s1 >= 70) && u1 >= 3 && s1 >= 50
    ensures u1 <= u2 && s1 <= s2 ==> Rank(Priority(u1, s1)) <= Rank(Priority(u2, s2))
  {
  }

  // ---------------------------------------------------------------------------
  // elementToProp, getDetailedPropInfo and inferElementTag

  datatype PropInfo = PropInfo(name: string, kind: string, description: string)

  const StringType := "string"
  const HandlerType := "() => void"

  /** `elementToProp`: the prop an element name suggests, checked in this order, or none. */
  function ElementToProp(element: string): Option<PropInfo>
  {
    PropOfLower(Text.LowerStr(element))
  }

  /** The tests of `elementToProp` on the lower-cased name. */
  function PropOfLower(el: string): Option<PropInfo>
  {
    if Text.Contains(el, "title") then Some(PropInfo("title", StringType, "The title text"))
    else if Text.Contains(el, "image") || Text.Contains(el, "img") then Some(PropInfo("imageUrl", StringType, "URL of the image"))
    else if Text.Contains(el, "button") then Some(PropInfo("onClick", HandlerType, "Button click handler"))
    else if Text.Contains(el, "link") then Some(PropInfo("href", StringType, "Link destination URL"))
    else if Text.Contains(el, "text") || Text.Contains(el, "content") then Some(PropInfo("text", StringType, "Text content"))
    else None
  }

  /** Whether an element name mentions any of the words `elementToProp` looks for. */
  predicate SuggestsProp(el: string)
  {
    Text.Contains(el, "title") || Text.Contains(el, "image") || Text.Contains(el, "img")
    || Text.Contains(el, "button") || Text.Contains(el, "link")
    || Text.Contains(el, "text") || Text.Contains(el, "content")
  }

  /**
   * The test is blind to case; a prop is suggested exactly when the name
   * mentions one of the words; only a button gives a handler, every other
   * prop is a string; a title wins over everything else.
   */
  lemma ElementToPropSpec(element: string)
    ensures ElementToProp(Text.UpperStr(element)) == ElementToProp(element) == ElementToProp(Text.LowerStr(element))
    ensures ElementToProp(element).Some? <==> SuggestsProp(Text.LowerStr(element))
    ensures ElementToProp(element).Some? ==>
      (ElementToProp(element).value.kind == HandlerType <==> ElementToProp(element).value.name == "onClick")
    ensures Text.Contains(Text.LowerStr(element), "title") ==> ElementToProp(element).value.name == "title"
  {
    Text.LowerStrIdempotent(element);
    LowerOfUpper(element);
    PropOfLowerSpec(Text.LowerStr(element));
  }

  lemma PropOfLowerSpec(el: string)
    ensures PropOfLower(el).Some? <==> SuggestsProp(el)
    ensures PropOfLower(el).Some? ==> (PropOfLower(el).value.kind == HandlerType <==> PropOfLower(el).value.name == "onClick")
    ensures Text.Contains(el, "title") ==> PropOfLower(el).value.name == "title"
  {
  }

  /** Lower-casing forgets an upper-casing. */
  lemma LowerOfUpper(s: string)
    ensures Text.LowerStr(Text.UpperStr(s)) == Text.LowerStr(s)
  {
    forall i | 0 <= i < |s|
      ensures Text.Lower(Text.Upper(s[i])) == Text.Lower(s[i])
    {
    }
  }

  datatype PropDetail = PropDetail(kind: string, required: string, description: string)

  /** `getDetailedPropInfo`: type, whether required and description of a prop, by its name. */
  function DetailedPropInfo(prop: string): PropDetail
  {
    DetailOfLower(Text.LowerStr(prop))
  }

  /** The tests of `getDetailedPropInfo` on the lower-cased name. */
  function DetailOfLower(p: string): PropDetail
  {
    if Text.Contains(p, "title") then PropDetail(StringType, "Yes", "The title text to display")
    else if Text.Contains(p, "image") then PropDetail(StringType, "Yes", "URL of the image to display")
    else if Text.Contains(p, "click") then PropDetail(HandlerType, "No", "Function to call when clicked")
    else if Text.Contains(p, "href") || Text.Contains(p, "url") then PropDetail(StringType, "Yes", "URL for navigation")
    else if Text.Contains(p, "text") || Text.Contains(p, "content") then PropDetail(StringType, "No", "Text content to display")
    else if p == "classname" then PropDetail(StringType, "No", "Additional CSS classes")
    else if Text.Contains(p, "aria") then PropDetail(StringType, "No", "Accessibility label")
    else PropDetail("any", "No", "Component property")
  }

  /**
   * Blind to case; a required prop is always a string; `className` in any
   * case is the optional CSS-class string.
   */
  lemma DetailedPropInfoSpec(prop: string)
    ensures DetailedPropInfo(Text.UpperStr(prop)) == DetailedPropInfo(prop) == DetailedPropInfo(Text.LowerStr(prop))
    ensures DetailedPropInfo(prop).required == "Yes" ==> DetailedPropInfo(prop).kind == StringType
    ensures Text.LowerStr(prop) == "classname" ==> DetailedPropInfo(prop) == PropDetail(StringType, "No", "Additional CSS classes")
  {
    Text.LowerStrIdempotent(prop);
    LowerOfUpper(prop);
    RequiredIsString(Text.LowerStr(prop));
    if Text.LowerStr(prop) == "classname" {
      ClassNameDetail();
    }
  }

  lemma RequiredIsString(p: string)
    ensures DetailOfLower(p).required == "Yes" ==> DetailOfLower(p).kind == StringType
  {
  }

  lemma ClassNameDetail()
    ensures DetailOfLower("classname") == PropDetail(StringType, "No", "Additional CSS classes")
  {
    NoneOf("classname");
  }

  /** "classname" mentions none of the words checked before it: each has a letter "classname" lacks. */
  lemma NoneOf(p: string)
    requires p == "classname"
    ensures !Text.Contains(p, "title") && !Text.Contains(p, "image") && !Text.Contains(p, "click")
    ensures !Text.Contains(p, "href") && !Text.Contains(p, "url") && !Text.Contains(p, "text") && !Text.Contains(p, "content")
  {
    LacksLetters(p);
    Lacks(p, "title", 0);
    Lacks(p, "image", 0);
    Lacks(p, "click", 4);
    Lacks(p, "href", 0);
    Lacks(p, "url", 0);
    Lacks(p, "text", 0);
    Lacks(p, "content", 1);
  }

  lemma LacksLetters(p: string)
    requires p == "classname"
    ensures 't' !in p && 'i' !in p && 'k' !in p && 'h' !in p && 'u' !in p && 'o' !in p
  {
    assert forall i :: 0 <= i < |p| ==> p[i] in {'c', 'l', 'a', 's', 'n', 'm', 'e'};
  }

  /** A text lacking one letter of a word does not contain the word. */
  lemma Lacks(s: string, w: string, i: nat)
    requires i < |w| && w[i] !in s
    ensures !Text.Contains(s, w)
  {
    if Text.Contains(s, w) {
      var j := Text.ContainsWitness(s, w);
    }
  }

  const Tags: set<string> := {"button", "a", "h2", "img", "p", "ul", "li", "div"}

  /** `inferElementTag`: the HTML tag an element name suggests, "div" when none does. */
  function InferElementTag(name: string): (tag: string)
    ensures tag in Tags
  {
    TagOfLower(Text.LowerStr(name))
  }

  /** The tests of `inferElementTag` on the lower-cased name. */
  function TagOfLower(n: string): (tag: string)
    ensures tag in Tags
  {
    if Text.Contains(n, "button") then "button"
    else if Text.Contains(n, "link") then "a"
    else if Text.Contains(n, "heading") || Text.Contains(n, "title") then "h2"
    else if Text.Contains(n, "image") then "img"
    else if Text.Contains(n, "text") || Text.Contains(n, "paragraph") then "p"
    else if Text.Contains(n, "list") then "ul"
    else if Text.Contains(n, "item") then "li"
    else "div"
  }

  /** The tag is one of eight, blind to case, and a button name always gives a button. */
  lemma InferElementTagSpec(name: string)
    ensures InferElementTag(Text.UpperStr(name)) == InferElementTag(name) == InferElementTag(Text.LowerStr(name))
    ensures Text.Contains(Text.LowerStr(name), "button") ==> InferElementTag(name) == "button"
  {
    Text.LowerStrIdempotent(name);
    LowerOfUpper(name);
    ButtonTag(Text.LowerStr(name));
  }

  lemma ButtonTag(n: string)
    ensures Text.Contains(n, "button") ==> TagOfLower(n) == "button"
  {
  }
}
