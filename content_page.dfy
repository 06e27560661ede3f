/**
 * Page analysis in the content script, over an abstract element tree: the
 * two section classifiers, element depth and document depth, visibility,
 * the layout summary, the detailed section records, and the shape of the
 * page-structure report with its fallback.
 */
module ContentPage {
  import opened Wrappers
  import Text
  import Collections
  import opened BackgroundTypes

  // ---------------------------------------------------------------------------
  // Classification

  /**
   * The tests both classifiers make, on the lower-cased tag name and class:
   * each is a tag comparison or a substring test on the class.
   */
  datatype Marks = Marks(
    header: bool, nav: bool, main: bool, footer: bool, aside: bool,
    hero: bool, card: bool, modal: bool, carousel: bool, form: bool, button: bool)

  function MarksOf(tagName: string, className: string): Marks
  {
    var tag, cls := Text.LowerStr(tagName), Text.LowerStr(className);
    Marks(
      header := tag == "header" || Text.Contains(cls, "header"),
      nav := tag == "nav" || Text.Contains(cls, "nav"),
      main := tag == "main" || Text.Contains(cls, "main"),
      footer := tag == "footer" || Text.Contains(cls, "footer"),
      aside := tag == "aside" || Text.Contains(cls, "sidebar"),
      hero := Text.Contains(cls, "hero") || Text.Contains(cls, "banner"),
      card := Text.Contains(cls, "card"),
      modal := Text.Contains(cls, "modal"),
      carousel := Text.Contains(cls, "carousel") || Text.Contains(cls, "slider"),
      form := Text.Contains(cls, "form"),
      button := Text.Contains(cls, "button") || Text.Contains(cls, "btn"))
  }

  /** The types `classifyElementType` gives. */
  datatype ElementType =
    | HeaderElement | NavigationElement | MainContentElement | FooterElement | SidebarElement
    | HeroSection | CardComponent | ModalComponent | CarouselComponent | FormComponent | ButtonComponent
    | ContentSection

  function ElementTypeName(t: ElementType): string
  {
    match t
    case HeaderElement => "header"
    case NavigationElement => "navigation"
    case MainContentElement => "main-content"
    case FooterElement => "footer"
    case SidebarElement => "sidebar"
    case HeroSection => "hero-section"
    case CardComponent => "card-component"
    case ModalComponent => "modal-component"
    case CarouselComponent => "carousel-component"
    case FormComponent => "form-component"
    case ButtonComponent => "button-component"
    case ContentSection => "content-section"
  }

  /** The types `inferSectionType` gives. */
  datatype SectionType = HeaderSection | NavigationSection | FooterSection | HeroArea | MainSection | SidebarSection | ContentArea

  function SectionTypeName(t: SectionType): string
  {
    match t
    case HeaderSection => "header"
    case NavigationSection => "navigation"
    case FooterSection => "footer"
    case HeroArea => "hero"
    case MainSection => "main"
    case SidebarSection => "sidebar"
    case ContentArea => "content"
  }

  /**
   * `classifyElementType`: header, navigation, main, footer, sidebar, then
   * the component classes; the first test that holds wins.
   */
  function ClassifyMarks(m: Marks): (r: ElementType)
    ensures r == ContentSection <==>
      !(m.header || m.nav || m.main || m.footer || m.aside || m.hero || m.card || m.modal || m.carousel || m.form || m.button)
    ensures r == HeaderElement <==> m.header
    ensures r == MainContentElement <==> !m.header && !m.nav && m.main
    ensures r == FooterElement <==> !m.header && !m.nav && !m.main && m.footer
  {
    if m.header then HeaderElement
    else if m.nav then NavigationElement
    else if m.main then MainContentElement
    else if m.footer then FooterElement
    else if m.aside then SidebarElement
    else if m.hero then HeroSection
    else if m.card then CardComponent
    else if m.modal then ModalComponent
    else if m.carousel then CarouselComponent
    else if m.form then FormComponent
    else if m.button then ButtonComponent
    else ContentSection
  }

  /**
   * `inferSectionType`: header, navigation, footer, then hero before main,
   * then sidebar; the first test that holds wins.
   */
  function InferMarks(m: Marks): (r: SectionType)
    ensures r == ContentArea <==> !(m.header || m.nav || m.footer || m.hero || m.main || m.aside)
    ensures r == HeaderSection <==> m.header
    ensures r == HeroArea <==> !m.header && !m.nav && !m.footer && m.hero
    ensures r == MainSection <==> !m.header && !m.nav && !m.footer && !m.hero && m.main
  {
    if m.header then HeaderSection
    else if m.nav then NavigationSection
    else if m.footer then FooterSection
    else if m.hero then HeroArea
    else if m.main then MainSection
    else if m.aside then SidebarSection
    else ContentArea
  }

  function ClassifyElementType(tagName: string, className: string): ElementType
  {
    ClassifyMarks(MarksOf(tagName, className))
  }

  function InferSectionType(tagName: string, className: string): SectionType
  {
    InferMarks(MarksOf(tagName, className))
  }

  /**
   * How the two classifiers relate on the same element: they agree on
   * headers and navigation, a "main" from the section classifier is a main
   * content element to the other, and a footer to the element classifier is
   * a footer to the section classifier.
   */
  lemma ClassifiersAgree(tagName: string, className: string)
    ensures var e, s := ClassifyElementType(tagName, className), InferSectionType(tagName, className);
      && (e == HeaderElement <==> s == HeaderSection)
      && (e == NavigationElement <==> s == NavigationSection)
      && (s == MainSection ==> e == MainContentElement)
      && (e == FooterElement ==> s == FooterSection)
      && (e == MainContentElement ==> s in {MainSection, HeroArea, FooterSection})
      && (s == HeroArea ==> e in {MainContentElement, SidebarElement, HeroSection})
  {
  }

  /**
   * Main is checked before hero by one classifier and after it by the other:
   * an element whose class contains both "main" and "hero" (say
   * "main-hero"), and no header, navigation or footer mark, is main content
   * to the first and a hero to the second.
   */
  lemma MainHeroConflict(tagName: string, className: string)
    requires var m := MarksOf(tagName, className); !m.header && !m.nav && !m.footer
    requires Text.Contains(Text.LowerStr(className), "main") && Text.Contains(Text.LowerStr(className), "hero")
    ensures ClassifyElementType(tagName, className) == MainContentElement
    ensures InferSectionType(tagName, className) == HeroArea
  {
  }

  // ---------------------------------------------------------------------------
  // Depth

  /**
   * The elements of the document in document order, each with the index of
   * its parent element; a parent always comes before its children.
   */
  datatype Dom = Dom(parent: seq<Option<nat>>)
  {
    predicate Valid()
    {
      forall i :: 0 <= i < |parent| && parent[i].Some? ==> parent[i].value < i
    }
  }

  /** The number of ancestors of element `i`. */
  function Depth(dom: Dom, i: nat): (d: nat)
    requires dom.Valid() && i < |dom.parent|
    ensures d <= i
    ensures dom.parent[i].None? <==> d == 0
    decreases i
  {
    if dom.parent[i].None? then 0 else 1 + Depth(dom, dom.parent[i].value)
  }

  /** `getElementDepth`: walk up the parent chain, counting. */
  method ElementDepth(dom: Dom, i: nat) returns (depth: nat)
    requires dom.Valid() && i < |dom.parent|
    ensures depth == Depth(dom, i)
  {
    depth := 0;
    var current: nat := i;
    while dom.parent[current].Some?
      invariant current < |dom.parent|
      invariant depth + Depth(dom, current) == Depth(dom, i)
      decreases current
    {
      depth := depth + 1;
      current := dom.parent[current].value;
    }
  }

  /** `calculateDOMDepth`: the greatest element depth, 0 for an empty document. */
  method CalculateDomDepth(dom: Dom) returns (maxDepth: nat)
    requires dom.Valid()
    ensures forall i :: 0 <= i < |dom.parent| ==> Depth(dom, i) <= maxDepth
    ensures maxDepth == 0 || exists i :: 0 <= i < |dom.parent| && Depth(dom, i) == maxDepth
  {
    maxDepth := 0;
    var k := 0;
    while k < |dom.parent|
      invariant k <= |dom.parent|
      invariant forall i :: 0 <= i < k ==> Depth(dom, i) <= maxDepth
      invariant maxDepth == 0 || exists i :: 0 <= i < k && Depth(dom, i) == maxDepth
    {
      var depth := ElementDepth(dom, k);
      if depth > maxDepth {
        maxDepth := depth;
      }
      k := k + 1;
    }
  }

  /** A child is one deeper than its parent, so depth grows along every chain. */
  lemma DepthOfChild(dom: Dom, i: nat)
    requires dom.Valid() && i < |dom.parent| && dom.parent[i].Some?
    ensures Depth(dom, i) == Depth(dom, dom.parent[i].value) + 1
  {
  }

  // ---------------------------------------------------------------------------
  // Visibility and layout

  /** What the content script reads of one element. */
  datatype ElementFacts = ElementFacts(
    tagName: string,
    className: string,
    rect: Box,
    visibility: string,
    display: string,
    opacity: string,
    attributes: Attributes,
    styles: seq<(string, string)>,
    children: seq<string>,
    depth: nat,
    directChildren: nat,
    allDescendants: nat,
    text: string)

  /** `isElementVisible`: a positive box that is not hidden, not undisplayed and not fully transparent. */
  predicate IsElementVisible(e: ElementFacts)
  {
    e.rect.width > 0 && e.rect.height > 0 && e.visibility != "hidden" && e.display != "none" && e.opacity != "0"
  }

  datatype Structure = UnknownLayout | GridLayout | FlexboxLayout | TraditionalLayout

  /** An element with `display: grid` and named template areas. */
  datatype GridArea = GridArea(element: string, areas: string)

  /** What `analyzeLayout` reads of the page; `mainDisplay` is the computed display of the main element, if any. */
  datatype LayoutFacts = LayoutFacts(
    mainDisplay: Option<string>,
    hasHeader: bool,
    hasFooter: bool,
    hasSidebar: bool,
    hasViewportMeta: bool,
    mediaTexts: seq<Option<seq<string>>>,
    styled: seq<(string, string, string)>)

  datatype Layout = Layout(
    structure: Structure,
    columns: nat,
    hasHeader: bool,
    hasFooter: bool,
    hasSidebar: bool,
    isResponsive: bool,
    gridAreas: seq<GridArea>)

  /** The layout structure: unknown without a main element, else grid, flexbox, or traditional by its display. */
  function StructureOf(mainDisplay: Option<string>): (r: Structure)
    ensures r == UnknownLayout <==> mainDisplay.None?
    ensures r == GridLayout <==> mainDisplay.Some? && Text.Contains(mainDisplay.value, "grid")
    ensures r == FlexboxLayout <==> mainDisplay.Some? && !Text.Contains(mainDisplay.value, "grid") && Text.Contains(mainDisplay.value, "flex")
  {
    match mainDisplay
    case None => UnknownLayout
    case Some(d) =>
      if Text.Contains(d, "grid") then GridLayout
      else if Text.Contains(d, "flex") then FlexboxLayout
      else TraditionalLayout
  }

  /**
   * `checkResponsiveDesign`: a viewport meta tag, or some readable style
   * sheet with a media rule mentioning max-width (an unreadable sheet counts
   * as having none).
   */
  function IsResponsive(hasViewportMeta: bool, mediaTexts: seq<Option<seq<string>>>): (r: bool)
    ensures r <==> (hasViewportMeta ||
      exists k, j :: 0 <= k < |mediaTexts| && mediaTexts[k].Some? && 0 <= j < |mediaTexts[k].value|
        && Text.Contains(mediaTexts[k].value[j], "max-width"))
  {
    hasViewportMeta ||
      exists k, j :: 0 <= k < |mediaTexts| && mediaTexts[k].Some? && 0 <= j < |mediaTexts[k].value|
        && Text.Contains(mediaTexts[k].value[j], "max-width")
  }

  /** `detectGridAreas`: the grid containers with template areas, in document order. */
  function GridAreas(styled: seq<(string, string, string)>): (r: seq<GridArea>)
    ensures |r| <= |styled|
    ensures forall a :: a in r ==> a.areas != "none"
    ensures forall k :: 0 <= k < |styled| && styled[k].1 == "grid" && styled[k].2 != "none" ==>
      GridArea(Text.LowerStr(styled[k].0), styled[k].2) in r
  {
    if styled == [] then []
    else
      var (tag, display, areas) := styled[0];
      var rest := GridAreas(styled[1..]);
      if display == "grid" && areas != "none" then [GridArea(Text.LowerStr(tag), areas)] + rest else rest
  }

  /** `analyzeLayout`: one column, the structure of the main element, and the page-wide flags. */
  function AnalyzeLayout(f: LayoutFacts): (l: Layout)
    ensures l.columns == 1
    ensures l.structure == StructureOf(f.mainDisplay)
    ensures (l.hasHeader, l.hasFooter, l.hasSidebar) == (f.hasHeader, f.hasFooter, f.hasSidebar)
  {
    Layout(StructureOf(f.mainDisplay), 1, f.hasHeader, f.hasFooter, f.hasSidebar,
      IsResponsive(f.hasViewportMeta, f.mediaTexts), GridAreas(f.styled))
  }

  /** "inline-grid" is a grid and "inline-flex" a flexbox: the display tests are substring tests. */
  lemma InlineDisplays()
    ensures StructureOf(Some("inline-grid")) == GridLayout
    ensures StructureOf(Some("inline-flex")) == FlexboxLayout
  {
    assert "inline-grid"[7..11] == "grid";
    Text.ContainsAt("inline-grid", "grid", 7);
    assert "inline-flex"[7..11] == "flex";
    Text.ContainsAt("inline-flex", "flex", 7);
    forall i: nat ensures !Text.OccursAt("inline-flex", "grid", i) {
      if i + 4 <= 11 {
        assert "inline-flex"[i..i + 4][0] == "inline-flex"[i] != 'g';
      }
    }
    Text.NotContains("inline-flex", "grid");
  }

  // ---------------------------------------------------------------------------
  // Detailed sections and the page report

  /** The characters the section id replaces by '_': brackets, quotes, '=', ':', '.', whitespace. */
  predicate IdUnsafe(c: char)
  {
    c == '[' || c == ']' || c == '"' || c == '\'' || c == '=' || c == ':' || c == '.' || Text.IsSpace(c)
  }

  function SafeSelector(selector: string): (r: string)
    ensures |r| == |selector|
    ensures forall i :: 0 <= i < |r| ==> !IdUnsafe(r[i]) && (r[i] == '_' || r[i] == selector[i])
  {
    if selector == [] then []
    else [if IdUnsafe(selector[0]) then '_' else selector[0]] + SafeSelector(selector[1..])
  }

  /** The section record of a visible element, the `index`-th match of `selector`. */
  function SectionRecord(selector: string, index: nat, e: ElementFacts): (s: RawSection)
    ensures s.kind == ElementTypeName(ClassifyElementType(e.tagName, e.className))
    ensures s.tagName == Text.LowerStr(e.tagName)
    ensures s.bounds == Some(e.rect)
    ensures s.elements == ElementCounts(e.directChildren, e.allDescendants)
  {
    RawSection(
      ElementTypeName(ClassifyElementType(e.tagName, e.className)),
      Text.LowerStr(e.tagName),
      Some(e.rect),
      ElementCounts(e.directChildren, e.allDescendants),
      ContentSummary(Text.Take(Text.Trim(e.text), 300)),
      Text.Take(Text.Trim(e.text), 500),
      e.attributes,
      e.styles,
      e.children,
      e.depth)
  }

  /** The positions, from `j` on, of the visible matches, in increasing order. */
  function VisibleIndices(matches: seq<ElementFacts>, j: nat): (r: seq<nat>)
    requires j <= |matches|
    ensures forall i :: i in r <==> j <= i < |matches| && IsElementVisible(matches[i])
    ensures forall k :: 0 <= k < |r| ==> j <= r[k] < |matches|
    ensures forall a, b :: 0 <= a < b < |r| ==> r[a] < r[b]
    decreases |matches| - j
  {
    if j == |matches| then []
    else if IsElementVisible(matches[j]) then [j] + VisibleIndices(matches, j + 1)
    else VisibleIndices(matches, j + 1)
  }

  /** `${selector with unsafe characters replaced}_${index}`. */
  function SectionId(selector: string, index: nat): string
  {
    SafeSelector(selector) + "_" + Text.NatToString(index)
  }

  /**
   * The sections of one selector's matches: one per visible match, in
   * document order, each numbered by its position among all matches
   * (hidden ones included).
   */
  function SelectorSections(selector: string, matches: seq<ElementFacts>): (r: seq<(string, RawSection)>)
    ensures var idx := VisibleIndices(matches, 0);
      && |r| == |idx|
      && forall k :: 0 <= k < |r| ==> r[k] == (SectionId(selector, idx[k]), SectionRecord(selector, idx[k], matches[idx[k]]))
  {
    var idx := VisibleIndices(matches, 0);
    seq(|idx|, k requires 0 <= k < |idx| => (SectionId(selector, idx[k]), SectionRecord(selector, idx[k], matches[idx[k]])))
  }

  /** `domStructure`. */
  datatype DomStructure = DomStructure(
    totalElements: nat,
    depth: nat,
    pageHeight: nat,
    pageWidth: nat,
    hasScrollableContent: bool,
    viewportWidth: nat,
    viewportHeight: nat)

  /** The page report; the parts the model does not analyse (forms, media, controls, menus, meta) are left out. */
  datatype PageStructure = PageStructure(
    sections: seq<RawSection>,
    layout: Option<Layout>,
    dom: DomStructure,
    error: Option<string>)

  /** What the page offers for the report. */
  datatype PageFacts = PageFacts(
    sections: seq<RawSection>,
    layout: LayoutFacts,
    totalElements: nat,
    depth: nat,
    heights: seq<nat>,
    widths: seq<nat>,
    viewportWidth: nat,
    viewportHeight: nat)

  /** `Math.max(…)` of the five page extents (each `|| 0`). */
  function Max(xs: seq<nat>): (m: nat)
    ensures forall k :: 0 <= k < |xs| ==> xs[k] <= m
    ensures m == 0 || m in xs
  {
    if xs == [] then 0
    else
      var rest := Max(xs[1..]);
      if xs[0] >= rest then xs[0] else rest
  }

  /**
   * `analyzePageStructure`: the report for a page, or, when the analysis
   * throws, the fallback: no sections, an empty layout, zero extents, not
   * scrollable, and the error message.
   */
  function AnalyzePageStructure(page: Result<PageFacts>): (r: PageStructure)
    ensures page.Err? ==>
      && r.sections == [] && r.layout.None? && r.error == Some(page.error)
      && r.dom == DomStructure(0, 0, 0, 0, false, 0, 0)
    ensures page.Ok? ==> r.error.None? && r.layout == Some(AnalyzeLayout(page.value.layout)) && r.sections == page.value.sections
    ensures page.Ok? ==> (r.dom.hasScrollableContent <==> r.dom.pageHeight > page.value.viewportHeight)
    ensures page.Ok? ==> forall k :: 0 <= k < |page.value.heights| ==> page.value.heights[k] <= r.dom.pageHeight
  {
    match page
    case Err(e) => PageStructure([], None, DomStructure(0, 0, 0, 0, false, 0, 0), Some(e))
    case Ok(p) =>
      var h, w := Max(p.heights), Max(p.widths);
      PageStructure(p.sections, Some(AnalyzeLayout(p.layout)),
        DomStructure(p.totalElements, p.depth, h, w, h > p.viewportHeight, p.viewportWidth, p.viewportHeight), None)
  }

  /** The report, as the background worker reads it: its sections, its element count and its error. */
  function ToDomAnalysis(r: PageStructure): (a: DomAnalysis)
    ensures a.sections == Some(r.sections)
    ensures a.error != "" ==> r.error.Some?
  {
    DomAnalysis(Some(r.sections), r.dom.totalElements, if r.error.Some? then r.error.value else "")
  }

  /** A failed analysis reaches the background worker with no sections, no elements, and its message. */
  lemma FallbackReachesWorker(message: string)
    requires message != ""
    ensures ToDomAnalysis(AnalyzePageStructure(Err(message))) == DomAnalysis(Some([]), 0, message)
  {
  }
}
