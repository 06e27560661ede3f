/**
 * The AI segmentation service: the settings it reads, the cache of
 * segmentations keyed by screenshot and route, the fallback segmentation,
 * the parser for a free-text answer, bounding boxes of vertex lists, and the
 * grouping of segments into component specifications.
 *
 * The vision API is an oracle: its answer arrives as a parameter, and
 * `JSON.parse` of that answer is a given function.
 */
module AiSegmentation {
  import opened Wrappers
  import Text
  import Collections
  import Base64
  import Options
  import BackgroundTypes

  /** A section of a segmentation; a missing `elements` is the empty list and a missing `content` the empty string. */
  datatype Segment = Segment(kind: string, bounds: Option<BackgroundTypes.Box>, elements: seq<string>, content: string)

  datatype Segmentation = Segmentation(sections: seq<Segment>, confidence: real, source: string)

  // ---------------------------------------------------------------------------
  // fallbackSegmentation

  const FallbackSource := "fallback"
  const PageWidth := 1200

  /** Header, main area and footer stacked down a 1200-pixel-wide page. */
  const FallbackSections: seq<Segment> := [
    Segment("header", Some(BackgroundTypes.Box(0, 0, PageWidth, 80)), ["logo", "navigation"], "Site header with navigation"),
    Segment("main", Some(BackgroundTypes.Box(0, 80, PageWidth, 600)), ["content"], "Main content area"),
    Segment("footer", Some(BackgroundTypes.Box(0, 680, PageWidth, 120)), ["links", "copyright"], "Site footer")
  ]

  function FallbackSegmentation(): (r: Segmentation)
    ensures r.source == FallbackSource && r.confidence == 0.3
  {
    Segmentation(FallbackSections, 0.3, FallbackSource)
  }

  /**
   * The fallback's sections are header, main and footer, each a full-width
   * box starting where the one before ends, from the top of the page.
   */
  lemma FallbackStacked()
    ensures var ss := FallbackSegmentation().sections;
      && |ss| == 3
      && ss[0].kind == "header" && ss[1].kind == "main" && ss[2].kind == "footer"
      && (forall i :: 0 <= i < |ss| ==> ss[i].bounds.Some? && ss[i].bounds.value.x == 0 && ss[i].bounds.value.width == PageWidth)
      && ss[0].bounds.value.y == 0
      && (forall i :: 0 < i < |ss| ==> ss[i].bounds.value.y == ss[i - 1].bounds.value.y + ss[i - 1].bounds.value.height)
  {
  }

  // ---------------------------------------------------------------------------
  // parseUnstructuredResponse

  const TextParsingSource := "text-parsing"

  /** The words that open a section, matched case-insensitively at the start of a trimmed line. */
  const HeaderWords: seq<string> := ["header", "navigation", "hero", "main", "footer", "sidebar"]

  /** `s` starts with one of `words`. */
  predicate StartsWithAny(s: string, words: seq<string>)
  {
    words != [] && (Text.StartsWith(s, words[0]) || StartsWithAny(s, words[1..]))
  }

  lemma {:induction false} StartsWithAnyWitness(s: string, words: seq<string>) returns (w: string)
    requires StartsWithAny(s, words)
    ensures w in words && Text.StartsWith(s, w)
    decreases |words|
  {
    if Text.StartsWith(s, words[0]) {
      w := words[0];
    } else {
      w := StartsWithAnyWitness(s, words[1..]);
    }
  }

  /** `/^(header|navigation|hero|main|footer|sidebar)/i`. */
  predicate IsHeaderLine(t: string)
  {
    StartsWithAny(Text.LowerStr(t), HeaderWords)
  }

  /** No header word holds a whitespace or ':'. */
  lemma HeaderWordsPlain(w: string)
    requires w in HeaderWords
    ensures forall i :: 0 <= i < |w| ==> !IsWordStop(w[i])
  {
  }

  /** `t[0]` is '-' or '*'. */
  predicate IsBulletLine(t: string)
  {
    t != [] && (t[0] == '-' || t[0] == '*')
  }

  predicate IsWordStop(c: char)
  {
    Text.IsSpace(c) || c == ':'
  }

  /** `s.split(/[\s:]/)[0]`: the text before the first whitespace or ':'. */
  function FirstWord(s: string): (r: string)
    ensures |r| <= |s| && r == s[..|r|]
    ensures forall i :: 0 <= i < |r| ==> !IsWordStop(r[i])
    ensures |r| < |s| ==> IsWordStop(s[|r|])
  {
    if s == [] || IsWordStop(s[0]) then []
    else
      var rest := FirstWord(s[1..]);
      assert s == [s[0]] + s[1..];
      [s[0]] + rest
  }

  /** A prefix free of stops survives the cut. */
  lemma {:induction false} FirstWordKeepsPrefix(s: string, p: string)
    requires Text.StartsWith(s, p)
    requires forall i :: 0 <= i < |p| ==> !IsWordStop(p[i])
    ensures Text.StartsWith(FirstWord(s), p)
    decreases |p|
  {
    if p != [] {
      assert s[0] == p[0];
      assert s[1..][..|p| - 1] == p[1..];
      FirstWordKeepsPrefix(s[1..], p[1..]);
    }
  }

  /** The type of the section a header line opens. */
  function SectionKind(t: string): string
  {
    FirstWord(Text.LowerStr(t))
  }

  /** The parser's state: the finished sections and the one being filled. */
  datatype ParseState = ParseState(done: seq<Segment>, current: Option<Segment>)

  /** One line of the answer. */
  function StepLine(st: ParseState, line: string): (r: ParseState)
  {
    var t := Text.Trim(line);
    if t == "" then st
    else if IsHeaderLine(t) then
      ParseState(st.done + (if st.current.Some? then [st.current.value] else []), Some(Segment(SectionKind(t), None, [], t)))
    else if st.current.Some? && IsBulletLine(t) then
      var c := st.current.value;
      ParseState(st.done, Some(c.(elements := c.elements + [Text.TrimStart(t[1..])])))
    else st
  }

  /** The state after the given lines. */
  function ParseLines(lines: seq<string>): ParseState
  {
    if lines == [] then ParseState([], None)
    else StepLine(ParseLines(lines[..|lines| - 1]), lines[|lines| - 1])
  }

  function Flush(st: ParseState): seq<Segment>
  {
    st.done + (if st.current.Some? then [st.current.value] else [])
  }

  function Lines(content: string): seq<string>
  {
    Text.Split(content, {'\n'})
  }

  /** The segmentation of a free-text answer. */
  function ParseUnstructured(content: string): Segmentation
  {
    Segmentation(Flush(ParseLines(Lines(content))), 0.6, TextParsingSource)
  }

  /** A section as the parser makes it: opened by a header line, typed by that line's first word. */
  predicate WellFormed(s: Segment)
  {
    IsHeaderLine(s.content) && s.kind == SectionKind(s.content) && s.bounds.None?
  }

  predicate StateWellFormed(st: ParseState)
  {
    (forall k :: 0 <= k < |st.done| ==> WellFormed(st.done[k]))
    && (st.current.Some? ==> WellFormed(st.current.value))
  }

  /** The number of header lines among `lines`. */
  function HeaderCount(lines: seq<string>): nat
  {
    if lines == [] then 0
    else HeaderCount(lines[..|lines| - 1]) + (if IsHeaderLine(Text.Trim(lines[|lines| - 1])) then 1 else 0)
  }

  /** One line keeps the state well formed and opens a section exactly on a header line. */
  lemma StepLineSpec(st: ParseState, line: string)
    requires StateWellFormed(st)
    ensures StateWellFormed(StepLine(st, line))
    ensures |Flush(StepLine(st, line))| == |Flush(st)| + (if IsHeaderLine(Text.Trim(line)) then 1 else 0)
    ensures StepLine(st, line).current.None? <==> st.current.None? && !IsHeaderLine(Text.Trim(line))
  {
    var t := Text.Trim(line);
    var h := IsHeaderLine(t);
    var r := StepLine(st, line);
    if t == "" {
      EmptyNotHeader();
      assert r == st && !h;
    } else if h {
      var s := Segment(SectionKind(t), None, [], t);
      assert WellFormed(s);
      assert r == ParseState(Flush(st), Some(s));
    } else if st.current.Some? && IsBulletLine(t) {
      var c := st.current.value;
      assert r == ParseState(st.done, Some(c.(elements := c.elements + [Text.TrimStart(t[1..])])));
    } else {
      assert r == st;
    }
  }

  /** Every header word is non-empty, so an empty line is no header. */
  lemma EmptyNotHeader()
    ensures !IsHeaderLine("")
  {
    assert Text.LowerStr("") == "";
    NoEmptyStart(HeaderWords);
  }

  lemma {:induction false} NoEmptyStart(words: seq<string>)
    requires forall k :: 0 <= k < |words| ==> words[k] != ""
    ensures !StartsWithAny("", words)
    decreases |words|
  {
    if words != [] {
      NoEmptyStart(words[1..]);
    }
  }

  lemma {:induction false} StartsWithAnyOf(s: string, words: seq<string>, k: nat)
    requires k < |words| && Text.StartsWith(s, words[k])
    ensures StartsWithAny(s, words)
    decreases k
  {
    if k > 0 {
      StartsWithAnyOf(s, words[1..], k - 1);
    }
  }

  /** One section per header line, each well formed; bullets before the first header are dropped. */
  lemma {:induction false} ParseLinesSpec(lines: seq<string>)
    ensures StateWellFormed(ParseLines(lines))
    ensures |Flush(ParseLines(lines))| == HeaderCount(lines)
    ensures ParseLines(lines).current.None? <==> HeaderCount(lines) == 0
    decreases |lines|
  {
    if lines != [] {
      var init := lines[..|lines| - 1];
      ParseLinesSpec(init);
      StepLineSpec(ParseLines(init), lines[|lines| - 1]);
    }
  }

  /** The parsed sections: one per header line, each typed by a word that begins with a header word. */
  lemma ParseUnstructuredSpec(content: string)
    ensures |ParseUnstructured(content).sections| == HeaderCount(Lines(content))
    ensures forall k :: 0 <= k < |ParseUnstructured(content).sections| ==>
      && WellFormed(ParseUnstructured(content).sections[k])
      && StartsWithAny(ParseUnstructured(content).sections[k].kind, HeaderWords)
  {
    ParseLinesSpec(Lines(content));
    var ss := Flush(ParseLines(Lines(content)));
    FlushWellFormed(ParseLines(Lines(content)));
    forall k | 0 <= k < |ss|
      ensures StartsWithAny(ss[k].kind, HeaderWords)
    {
      KindStartsWithHeaderWord(ss[k]);
    }
  }

  /** Closing the open section keeps every section well formed. */
  lemma FlushWellFormed(st: ParseState)
    requires StateWellFormed(st)
    ensures forall k :: 0 <= k < |Flush(st)| ==> WellFormed(Flush(st)[k])
  {
    forall k | 0 <= k < |Flush(st)|
      ensures WellFormed(Flush(st)[k])
    {
      if k < |st.done| {
        assert Flush(st)[k] == st.done[k];
      }
    }
  }

  lemma KindStartsWithHeaderWord(s: Segment)
    requires WellFormed(s)
    ensures StartsWithAny(s.kind, HeaderWords)
  {
    var w := StartsWithAnyWitness(Text.LowerStr(s.content), HeaderWords);
    HeaderWordsPlain(w);
    FirstWordKeepsPrefix(Text.LowerStr(s.content), w);
    var k :| 0 <= k < |HeaderWords| && HeaderWords[k] == w;
    StartsWithAnyOf(s.kind, HeaderWords, k);
  }

  /** Free text with no header line yields no sections at all. */
  lemma NoHeaderNoSections(content: string)
    requires forall k :: 0 <= k < |Lines(content)| ==> !IsHeaderLine(Text.Trim(Lines(content)[k]))
    ensures ParseUnstructured(content).sections == []
  {
    ParseUnstructuredSpec(content);
    NoHeaderCount(Lines(content));
  }

  lemma {:induction false} NoHeaderCount(lines: seq<string>)
    requires forall k :: 0 <= k < |lines| ==> !IsHeaderLine(Text.Trim(lines[k]))
    ensures HeaderCount(lines) == 0
    decreases |lines|
  {
    if lines != [] {
      NoHeaderCount(lines[..|lines| - 1]);
    }
  }

  lemma ParseLinesStep(lines: seq<string>, i: nat)
    requires i < |lines|
    ensures ParseLines(lines[..i + 1]) == StepLine(ParseLines(lines[..i]), lines[i])
  {
    assert lines[..i + 1][..i] == lines[..i];
  }

  /** `parseUnstructuredResponse(content)`: the line walk with the section being filled. */
  method ParseUnstructuredResponse(content: string) returns (r: Segmentation)
    ensures r == ParseUnstructured(content)
  {
    var sections, current := WalkLines(Lines(content));
    ParsedBy(content, ParseState(sections, current));
    r := Segmentation(Flush(ParseState(sections, current)), 0.6, TextParsingSource);
  }

  /** The walk over the lines: the closed sections and the one being filled. */
  method WalkLines(lines: seq<string>) returns (sections: seq<Segment>, current: Option<Segment>)
    ensures ParseState(sections, current) == ParseLines(lines)
  {
    sections, current := [], None;
    var i := 0;
    while i < |lines|
      invariant i <= |lines|
      invariant ParseLines(lines[..i]) == ParseState(sections, current)
    {
      ParseLinesStep(lines, i);
      ghost var next := ParseLines(lines[..i + 1]);
      sections, current := ParseLine(sections, current, lines[i]);
      assert ParseState(sections, current) == next;
      i := i + 1;
    }
    Collections.PrefixFull(lines, i);
  }

  /** The segmentation of an answer is its final parse state, flushed. */
  lemma ParsedBy(content: string, st: ParseState)
    requires ParseLines(Lines(content)) == st
    ensures ParseUnstructured(content) == Segmentation(Flush(st), 0.6, TextParsingSource)
  {
  }

  /** One line of the walk: a header line closes the open section and opens another, a bullet adds an element. */
  method ParseLine(sections: seq<Segment>, current: Option<Segment>, line: string)
    returns (sections': seq<Segment>, current': Option<Segment>)
    ensures ParseState(sections', current') == StepLine(ParseState(sections, current), line)
  {
    sections', current' := sections, current;
    var trimmed := Text.Trim(line);
    ghost var next := StepLine(ParseState(sections, current), line);
    if trimmed != "" {
      var header := IsHeaderLine(trimmed);
      if header {
        if current.Some? {
          sections' := sections + [current.value];
        }
        current' := Some(Segment(SectionKind(trimmed), None, [], trimmed));
        assert next == ParseState(sections', current');
      } else if current.Some? && IsBulletLine(trimmed) {
        var c := current.value;
        current' := Some(c.(elements := c.elements + [Text.TrimStart(trimmed[1..])]));
        assert next == ParseState(sections', current');
      }
    }
  }

  // ---------------------------------------------------------------------------
  // calculateBounds

  /** A vertex of a bounding polygon; a missing coordinate reads as 0. */
  datatype Vertex = Vertex(x: Option<int>, y: Option<int>)

  function Coord(c: Option<int>): int
  {
    if c.Some? then c.value else 0
  }

  function Min(xs: seq<int>): (m: int)
    requires xs != []
    ensures m in xs && forall i :: 0 <= i < |xs| ==> m <= xs[i]
  {
    if |xs| == 1 then xs[0]
    else
      var m := Min(xs[..|xs| - 1]);
      assert forall i :: 0 <= i < |xs| - 1 ==> xs[..|xs| - 1][i] == xs[i];
      if xs[|xs| - 1] < m then xs[|xs| - 1] else m
  }

  function Max(xs: seq<int>): (m: int)
    requires xs != []
    ensures m in xs && forall i :: 0 <= i < |xs| ==> xs[i] <= m
  {
    if |xs| == 1 then xs[0]
    else
      var m := Max(xs[..|xs| - 1]);
      assert forall i :: 0 <= i < |xs| - 1 ==> xs[..|xs| - 1][i] == xs[i];
      if xs[|xs| - 1] > m then xs[|xs| - 1] else m
  }

  function Xs(vs: seq<Vertex>): (xs: seq<int>)
    ensures |xs| == |vs| && forall i :: 0 <= i < |vs| ==> xs[i] == Coord(vs[i].x)
  {
    seq(|vs|, i requires 0 <= i < |vs| => Coord(vs[i].x))
  }

  function Ys(vs: seq<Vertex>): (ys: seq<int>)
    ensures |ys| == |vs| && forall i :: 0 <= i < |vs| ==> ys[i] == Coord(vs[i].y)
  {
    seq(|vs|, i requires 0 <= i < |vs| => Coord(vs[i].y))
  }

  /**
   * `calculateBounds(vertices)`: the smallest box holding every vertex. An
   * empty list, where `Math.min()` is `Infinity`, gives `None`.
   */
  function CalculateBounds(vs: seq<Vertex>): (b: Option<BackgroundTypes.Box>)
    ensures b.None? <==> vs == []
    ensures b.Some? ==> b.value.width >= 0 && b.value.height >= 0
    ensures b.Some? ==> forall i :: 0 <= i < |vs| ==>
      && b.value.x <= Coord(vs[i].x) <= b.value.x + b.value.width
      && b.value.y <= Coord(vs[i].y) <= b.value.y + b.value.height
    ensures b.Some? ==>
      && (exists i :: 0 <= i < |vs| && Coord(vs[i].x) == b.value.x)
      && (exists i :: 0 <= i < |vs| && Coord(vs[i].x) == b.value.x + b.value.width)
      && (exists i :: 0 <= i < |vs| && Coord(vs[i].y) == b.value.y)
      && (exists i :: 0 <= i < |vs| && Coord(vs[i].y) == b.value.y + b.value.height)
  {
    if vs == [] then None
    else
      var xs, ys := Xs(vs), Ys(vs);
      var x0, x1, y0, y1 := Min(xs), Max(xs), Min(ys), Max(ys);
      assert x0 <= xs[0] <= x1 && y0 <= ys[0] <= y1;
      Some(BackgroundTypes.Box(x0, y0, x1 - x0, y1 - y0))
  }

  // ---------------------------------------------------------------------------
  // inferComponentType

  const GenericComponent := "GenericComponent"

  /** The `typeMapping` table, as its own entries. */
  function TypeMapping(t: string): Option<string>
  {
    match t
    case "header" => Some("Header")
    case "navigation" => Some("Navigation")
    case "nav" => Some("Navigation")
    case "hero" => Some("HeroSection")
    case "banner" => Some("Banner")
    case "card" => Some("Card")
    case "button" => Some("Button")
    case "form" => Some("Form")
    case "footer" => Some("Footer")
    case "sidebar" => Some("Sidebar")
    case "main" => Some("MainContent")
    case "text" => Some("TextBlock")
    case _ => None
  }

  /** The component type of a segment: the table's entry for its lower-cased type, else GenericComponent. */
  function InferComponentType(s: Segment): (t: string)
    ensures t != ""
    ensures TypeMapping(Text.LowerStr(s.kind)).None? <==> t == GenericComponent
  {
    match TypeMapping(Text.LowerStr(s.kind))
    case Some(name) => name
    case None => GenericComponent
  }

  /** What `typeMapping[type]` reads: an entry of the table, or a member every object inherits. */
  datatype Lookup = Entry(name: string) | Inherited(member: string) | Undefined

  /** The lower-case names `Object.prototype` supplies to every object literal. */
  const InheritedMembers: set<string> := {"constructor", "__proto__"}

  /** `typeMapping[type] || 'GenericComponent'` as the code runs it. */
  function InferComponentTypeAsWritten(s: Segment): (r: Lookup)
    ensures r.Entry? <==> (TypeMapping(Text.LowerStr(s.kind)).Some? || Text.LowerStr(s.kind) !in InheritedMembers)
  {
    var t := Text.LowerStr(s.kind);
    match TypeMapping(t)
    case Some(name) => Entry(name)
    case None => if t in InheritedMembers then Inherited(t) else Entry(GenericComponent)
  }

  /** How the inherited values read as strings: the `Object` function and `Object.prototype`. */
  const ObjectFunctionText := "function Object() { [native code] }"
  const ObjectPrototypeText := "[object Object]"

  /**
   * The component type `analyzeComponents` groups by, as the code runs it:
   * the table's name, GenericComponent, or the inherited value, written in
   * its string form. It differs from the corrected type exactly on the
   * inherited names.
   */
  function ComponentTypeAsWritten(s: Segment): (t: string)
    ensures t != ""
    ensures t == InferComponentType(s) <==> Text.LowerStr(s.kind) !in InheritedMembers
  {
    match InferComponentTypeAsWritten(s)
    case Entry(name) => name
    case Inherited(m) => if m == ConstructorName then ObjectFunctionText else ObjectPrototypeText
    case Undefined => GenericComponent
  }

  /** A segment typed "constructor" gets the `Object` function as its component type, not a name. */
  lemma ConstructorTypeIsInherited()
    ensures InferComponentTypeAsWritten(ConstructorSegment).Inherited?
    ensures InferComponentType(ConstructorSegment) == GenericComponent
    ensures ComponentTypeAsWritten(ConstructorSegment) == ObjectFunctionText
  {
    ConstructorLowered();
    ConstructorNotInTable();
  }

  const ConstructorName := "constructor"
  const ConstructorSegment := Segment(ConstructorName, None, [], "")

  lemma ConstructorLowered()
    ensures Text.LowerStr(ConstructorName) == ConstructorName
  {
    LowerStrKeeps(ConstructorName);
  }

  /** A string with no upper-case letter is its own lower case. */
  lemma LowerStrKeeps(s: string)
    requires forall i :: 0 <= i < |s| ==> 'a' <= s[i] <= 'z'
    ensures Text.LowerStr(s) == s
  {
    assert forall i :: 0 <= i < |s| ==> Text.LowerStr(s)[i] == s[i];
  }

  lemma ConstructorNotInTable()
    ensures TypeMapping(ConstructorName).None? && ConstructorName in InheritedMembers
  {
  }

  /** Away from the inherited names the code and the corrected function agree. */
  lemma AsWrittenAgreesElsewhere(s: Segment)
    requires Text.LowerStr(s.kind) !in InheritedMembers
    ensures InferComponentTypeAsWritten(s) == Entry(InferComponentType(s))
  {
  }

  // ---------------------------------------------------------------------------
  // generateCacheKey

  const HashedImageLength := 1000
  const CacheKeyLength := 16

  /** The text the key is made from: the start of the image data and the route's url. */
  function HashedText(imageData: string, url: string): string
  {
    Text.Take(imageData, HashedImageLength) + url
  }

  /**
   * `btoa(dataToHash).substring(0, 16)` as written; `None` where `btoa`
   * throws on a character above U+00FF.
   */
  function CacheKeyAsWritten(imageData: string, url: string): (r: Option<string>)
    ensures r.Some? <==> Base64.IsLatin1(HashedText(imageData, url))
    ensures r.Some? ==> |r.value| <= CacheKeyLength
  {
    match Base64.Btoa(HashedText(imageData, url))
    case None => None
    case Some(e) => Some(Text.Take(e, CacheKeyLength))
  }

  /**
   * Sixteen base64 characters encode twelve input characters, so the key
   * sees only the first twelve characters of the image data: two data URLs
   * of one image format ("data:image/jpeg;base64,...") get the same key,
   * whatever the screenshot and whatever the route.
   */
  lemma CacheKeyCollision(a: string, b: string, urlA: string, urlB: string)
    requires |a| >= 12 && |b| >= 12 && a[..12] == b[..12]
    requires Base64.IsLatin1(HashedText(a, urlA)) && Base64.IsLatin1(HashedText(b, urlB))
    ensures CacheKeyAsWritten(a, urlA) == CacheKeyAsWritten(b, urlB) != None
  {
    KeySeesTwelve(HashedText(a, urlA));
    KeySeesTwelve(HashedText(b, urlB));
    assert HashedText(a, urlA)[..12] == a[..12];
    assert HashedText(b, urlB)[..12] == b[..12];
  }

  lemma KeySeesTwelve(s: string)
    requires |s| >= 12 && Base64.IsLatin1(s)
    ensures Base64.IsLatin1(s[..12])
    ensures Text.Take(Base64.Btoa(s).value, CacheKeyLength) == Base64.Btoa(s[..12]).value
  {
    var a, t := s[..12], s[12..];
    assert s == a + t;
    assert Base64.IsLatin1(a) && Base64.IsLatin1(t) by {
      assert forall i :: 0 <= i < |a| ==> a[i] == s[i];
      assert forall i :: 0 <= i < |t| ==> t[i] == s[12 + i];
    }
    Base64.BtoaConcat(a, t);
    var ea := Base64.Btoa(a).value;
    assert |ea| == 16;
    assert (ea + Base64.Btoa(t).value)[..16] == ea;
  }

  /**
   * The key the comment describes, "a hash of the image data and route":
   * the whole encoding of the hashed text, without the cut.
   */
  function CacheKey(imageData: string, url: string): (r: Option<string>)
    ensures r.Some? <==> Base64.IsLatin1(HashedText(imageData, url))
  {
    Base64.Btoa(HashedText(imageData, url))
  }

  /** Equal keys mean equal hashed text: the key tells screenshots and routes apart. */
  lemma CacheKeyInjective(a: string, b: string, urlA: string, urlB: string)
    requires CacheKey(a, urlA) == CacheKey(b, urlB) != None
    ensures HashedText(a, urlA) == HashedText(b, urlB)
  {
    Base64.AtobBtoa(HashedText(a, urlA));
    Base64.AtobBtoa(HashedText(b, urlB));
  }

  // ---------------------------------------------------------------------------
  // init, segmentWithOpenAI, segmentImage

  const ThresholdKey := "segmentationThreshold"
  const CachingKey := "enableCaching"
  const ApiKeyKey := "apiKey"
  const DefaultThreshold := Options.Num(0.7)

  /** The settings `init` keeps: the threshold and whether answers are cached. */
  datatype ServiceSettings = ServiceSettings(threshold: Options.Setting, enableCaching: bool)

  /**
   * `init`: a falsy stored threshold becomes 0.7, and caching is on unless
   * it was stored as `false`.
   */
  function SettingsOf(stored: map<string, Options.Setting>): (s: ServiceSettings)
    ensures Options.Truthy(Some(s.threshold))
    ensures Options.Truthy(Options.Get(stored, ThresholdKey)) ==> Some(s.threshold) == Options.Get(stored, ThresholdKey)
    ensures !s.enableCaching <==> Options.Get(stored, CachingKey) == Some(Options.Flag(false))
  {
    var t := Options.Get(stored, ThresholdKey);
    ServiceSettings(if Options.Truthy(t) then t.value else DefaultThreshold,
                    Options.Get(stored, CachingKey) != Some(Options.Flag(false)))
  }

  /** `this.settings.apiKey || null`: a key is kept only when it is truthy. */
  function ApiKeyOf(stored: map<string, Options.Setting>): (k: Option<Options.Setting>)
    ensures k.Some? <==> Options.Truthy(Options.Get(stored, ApiKeyKey))
    ensures k.Some? ==> k == Options.Get(stored, ApiKeyKey)
  {
    var k := Options.Get(stored, ApiKeyKey);
    if Options.Truthy(k) then k else None
  }

  /**
   * What the vision API did: the request or the reading of its body threw,
   * the response was not ok, or the answer's message content arrived.
   */
  datatype ApiAnswer = RequestFailed | NotOk(status: nat) | Answered(content: string)

  const ApiErrorPrefix := "OpenAI API error: "
  const RequestError := "request failed"
  /** What `btoa` throws on a character above U+00FF. */
  const BtoaError := "InvalidCharacterError"

  /**
   * `segmentWithOpenAI`: the fallback without a key; an error when the
   * request fails; otherwise the parsed answer, or the free-text parse when
   * `JSON.parse` (the given `parse`) rejects it.
   */
  function SegmentWithOpenAI(apiKey: Option<Options.Setting>, answer: ApiAnswer,
                             parse: string -> Option<Segmentation>): (r: Result<Segmentation>)
    ensures !Options.Truthy(apiKey) ==> r == Ok(FallbackSegmentation())
    ensures r.Err? <==> Options.Truthy(apiKey) && !answer.Answered?
    ensures Options.Truthy(apiKey) && answer.Answered? && parse(answer.content).None? ==>
      r == Ok(ParseUnstructured(answer.content))
  {
    if !Options.Truthy(apiKey) then Ok(FallbackSegmentation())
    else
      match answer
      case RequestFailed => Err(RequestError)
      case NotOk(status) => Err(ApiErrorPrefix + Text.NatToString(status))
      case Answered(content) =>
        match parse(content)
        case Some(seg) => Ok(seg)
        case None => Ok(ParseUnstructured(content))
  }

  /** What `segmentImage` returns and the cache it leaves. */
  datatype Outcome = Outcome(result: Result<Segmentation>, cache: map<string, Segmentation>)

  /**
   * `segmentImage` after `init`: `btoa` throwing rejects the call; a cached
   * answer is returned when caching is on; otherwise the API's answer is
   * returned and, when caching is on, stored; a failed request gives the
   * fallback, which is not stored.
   */
  function SegmentImageSpec(cache: map<string, Segmentation>, settings: ServiceSettings, apiKey: Option<Options.Setting>,
                            imageData: string, url: string, answer: ApiAnswer,
                            parse: string -> Option<Segmentation>): Outcome
  {
    match CacheKeyAsWritten(imageData, url)
    case None => Outcome(Err(BtoaError), cache)
    case Some(key) =>
      if settings.enableCaching && key in cache then Outcome(Ok(cache[key]), cache)
      else
        match SegmentWithOpenAI(apiKey, answer, parse)
        case Ok(seg) => Outcome(Ok(seg), if settings.enableCaching then cache[key := seg] else cache)
        case Err(_) => Outcome(Ok(FallbackSegmentation()), cache)
  }

  /**
   * A call only adds to the cache: every entry keeps its value, and the one
   * new key, if any, is the call's own key.
   */
  lemma CacheOnlyGrows(cache: map<string, Segmentation>, settings: ServiceSettings, apiKey: Option<Options.Setting>,
                       imageData: string, url: string, answer: ApiAnswer, parse: string -> Option<Segmentation>)
    ensures var o := SegmentImageSpec(cache, settings, apiKey, imageData, url, answer, parse);
      && (forall k :: k in cache ==> k in o.cache && o.cache[k] == cache[k])
      && (forall k :: k in o.cache && k !in cache ==> Some(k) == CacheKeyAsWritten(imageData, url))
      && (o.result.Err? <==> CacheKeyAsWritten(imageData, url).None?)
  {
  }

  /**
   * With caching on, once an answer was stored the same screenshot and
   * route get it back, whatever the API would answer the second time.
   */
  lemma SecondCallHitsCache(cache: map<string, Segmentation>, settings: ServiceSettings, apiKey: Option<Options.Setting>,
                            imageData: string, url: string, first: ApiAnswer, second: ApiAnswer,
                            parse: string -> Option<Segmentation>)
    requires settings.enableCaching && SegmentWithOpenAI(apiKey, first, parse).Ok?
    ensures var o1 := SegmentImageSpec(cache, settings, apiKey, imageData, url, first, parse);
      SegmentImageSpec(o1.cache, settings, apiKey, imageData, url, second, parse) == o1
  {
  }

  /**
   * The key sees only the first twelve characters of the image data, so
   * with caching on, once one screenshot's answer is stored, any later
   * screenshot that starts like it (every PNG data URL does) gets that
   * answer back, whatever its route and whatever the API would answer.
   */
  lemma OtherRouteServedFromCache(cache: map<string, Segmentation>, settings: ServiceSettings, apiKey: Option<Options.Setting>,
                                  a: string, urlA: string, b: string, urlB: string, first: ApiAnswer, second: ApiAnswer,
                                  parse: string -> Option<Segmentation>)
    requires settings.enableCaching && SegmentWithOpenAI(apiKey, first, parse).Ok?
    requires |a| >= 12 && |b| >= 12 && a[..12] == b[..12]
    requires Base64.IsLatin1(HashedText(a, urlA)) && Base64.IsLatin1(HashedText(b, urlB))
    ensures var o1 := SegmentImageSpec(cache, settings, apiKey, a, urlA, first, parse);
      SegmentImageSpec(o1.cache, settings, apiKey, b, urlB, second, parse) == o1
  {
    CacheKeyCollision(a, b, urlA, urlB);
  }

  /**
   * A failed request is not remembered: the caller gets the fallback and the
   * next call asks the API again.
   */
  lemma FailureNotCached(cache: map<string, Segmentation>, settings: ServiceSettings, apiKey: Option<Options.Setting>,
                         imageData: string, url: string, parse: string -> Option<Segmentation>)
    requires Options.Truthy(apiKey) && CacheKeyAsWritten(imageData, url).Some?
    requires !(settings.enableCaching && CacheKeyAsWritten(imageData, url).value in cache)
    ensures SegmentImageSpec(cache, settings, apiKey, imageData, url, RequestFailed, parse)
      == Outcome(Ok(FallbackSegmentation()), cache)
  {
  }

  /**
   * The fallback given for want of a key is cached like an answer, so with
   * caching on a screenshot first segmented without a key keeps the
   * fallback after a key is configured and the API answers.
   */
  lemma FallbackOutlivesKey(cache: map<string, Segmentation>, settings: ServiceSettings, key: Options.Setting,
                            imageData: string, url: string, content: string, parse: string -> Option<Segmentation>)
    requires settings.enableCaching && CacheKeyAsWritten(imageData, url).Some? && Options.Truthy(Some(key))
    ensures var o1 := SegmentImageSpec(cache, settings, None, imageData, url, RequestFailed, parse);
      var o2 := SegmentImageSpec(o1.cache, settings, Some(key), imageData, url, Answered(content), parse);
      CacheKeyAsWritten(imageData, url).value !in cache ==> o1.result == o2.result == Ok(FallbackSegmentation())
  {
  }

  /** The segmentation service: the settings read by `init` and the in-memory answer cache. */
  class AISegmentation {
    var apiKey: Option<Options.Setting>
    /** `null` until the first `init`. */
    var settings: Option<ServiceSettings>
    var apiCache: map<string, Segmentation>

    constructor()
      ensures apiKey == None && settings == None && apiCache == map[]
    {
      apiKey := None;
      settings := None;
      apiCache := map[];
    }

    /** `init`: read the settings from sync storage; the cache is kept. */
    method Init(stored: map<string, Options.Setting>)
      modifies this
      ensures settings == Some(SettingsOf(stored)) && apiKey == ApiKeyOf(stored)
      ensures apiCache == old(apiCache)
    {
      var t := Options.Get(stored, ThresholdKey);
      var threshold := if Options.Truthy(t) then t.value else DefaultThreshold;
      var caching := Options.Get(stored, CachingKey) != Some(Options.Flag(false));
      settings := Some(ServiceSettings(threshold, caching));
      var k := Options.Get(stored, ApiKeyKey);
      apiKey := if Options.Truthy(k) then k else None;
    }

    /** `segmentImage(imageData, route)`: init, then the cache, then the API. */
    method SegmentImage(stored: map<string, Options.Setting>, imageData: string, url: string,
                        answer: ApiAnswer, parse: string -> Option<Segmentation>) returns (r: Result<Segmentation>)
      modifies this
      ensures settings == Some(SettingsOf(stored)) && apiKey == ApiKeyOf(stored)
      ensures var o := SegmentImageSpec(old(apiCache), SettingsOf(stored), ApiKeyOf(stored), imageData, url, answer, parse);
        r == o.result && apiCache == o.cache
    {
      Init(stored);
      var cacheKey := CacheKeyAsWritten(imageData, url);
      if cacheKey.None? {
        return Err(BtoaError);
      }
      var key := cacheKey.value;
      if settings.value.enableCaching && key in apiCache {
        return Ok(apiCache[key]);
      }
      var result := SegmentWithOpenAI(apiKey, answer, parse);
      if result.Ok? {
        if settings.value.enableCaching {
          apiCache := apiCache[key := result.value];
        }
        r := result;
      } else {
        r := Ok(FallbackSegmentation());
      }
    }
  }
}
