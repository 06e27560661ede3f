/**
 * The records the background service worker exchanges with the content
 * script: the page analysis it receives, and the route analysis and
 * component records it stores.
 *
 * JavaScript objects become datatypes. A property that is absent or falsy is
 * the empty string, `None`, or the `NoElements` case, so that `x || d` is an
 * explicit test.
 */
module BackgroundTypes {
  import opened Wrappers

  datatype Box = Box(x: int, y: int, width: int, height: int)

  const ZeroBox := Box(0, 0, 0, 0)

  /**
   * A section's `elements` property: absent, a list of element names, or the
   * `{direct, all}` object of child counts that the content script stores.
   */
  datatype Elements = NoElements | ElementList(names: seq<string>) | ElementCounts(direct: nat, all: nat)

  /**
   * A section's `content`: a string (empty when absent), or the summary object
   * the content script builds, which is always truthy.
   */
  datatype Content = TextContent(text: string) | ContentSummary(summary: string)

  predicate Truthy(c: Content)
  {
    c.ContentSummary? || c.text != ""
  }

  /** An attribute object, as its `[name, value]` entries in key order. */
  type Attributes = seq<(string, string)>

  /** A section as the content script reports it; `kind` is its `type` property. */
  datatype RawSection = RawSection(
    kind: string,
    tagName: string,
    bounds: Option<Box>,
    elements: Elements,
    content: Content,
    textContent: string,
    attributes: Attributes,
    styles: seq<(string, string)>,
    children: seq<string>,
    depth: nat)

  /** The content script's page analysis; `error` is "" when it has none. */
  datatype DomAnalysis = DomAnalysis(sections: Option<seq<RawSection>>, totalElements: nat, error: string)

  datatype Route = Route(id: string, url: string, title: string, fullUrl: string)

  /** A normalised section, or the single error section of a fallback record. */
  datatype Section =
    | Section(id: string, kind: string, tagName: string, bounds: Box, elements: Elements,
              content: Content, attributes: Attributes, styles: seq<(string, string)>,
              children: seq<string>, depth: nat)
    | ErrorSection(message: string, bounds: Box)

  datatype Complexity = Simple | Moderate | Complex

  datatype Variation = Variation(id: nat, elements: Elements, bounds: Option<Box>, content: Content, attributes: Attributes)

  datatype Component = Component(
    kind: string,
    instances: nat,
    commonElements: seq<string>,
    variations: seq<Variation>,
    props: seq<string>,
    cssClasses: seq<string>,
    complexity: Complexity)

  /** The `analysis` summary: confidence 0.9 from a page analysis, 0.1 for a fallback. */
  datatype Summary =
    | DomSummary(elementsAnalyzed: nat, sectionsFound: nat, componentsIdentified: nat)
    | FallbackSummary(error: string)
  {
    /** `confidence`, in hundredths. */
    function ConfidencePct(): nat
    {
      if DomSummary? then 90 else 10
    }

    function Source(): string
    {
      if DomSummary? then "dom-analysis" else "fallback"
    }
  }

  datatype RouteAnalysis = RouteAnalysis(
    route: string,
    title: string,
    error: Option<string>,
    sections: seq<Section>,
    components: seq<Component>,
    analysis: Summary)

  // ---------------------------------------------------------------------------
  // Property access with defaults

  /** `attributes[name] || ''`: the first entry with that name. */
  function Attr(attrs: Attributes, name: string): (v: string)
    ensures v != "" ==> (name, v) in attrs
  {
    if attrs == [] then ""
    else if attrs[0].0 == name then attrs[0].1
    else Attr(attrs[1..], name)
  }

  /** `Object.keys(attributes)`. */
  function Keys(attrs: Attributes): (ks: seq<string>)
    ensures |ks| == |attrs|
    ensures forall i :: 0 <= i < |attrs| ==> ks[i] == attrs[i].0
  {
    seq(|attrs|, i requires 0 <= i < |attrs| => attrs[i].0)
  }

  /** `content || textContent || ''`. */
  function ContentOf(s: RawSection): (c: Content)
    ensures Truthy(c) <==> Truthy(s.content) || s.textContent != ""
  {
    if Truthy(s.content) then s.content else TextContent(s.textContent)
  }

  /** `elements || []`. */
  function ElementsOrEmpty(e: Elements): (r: Elements)
    ensures !r.NoElements?
  {
    if e.NoElements? then ElementList([]) else e
  }

  /** `attributes?.class || ''`. */
  function ClassAttr(s: RawSection): string
  {
    Attr(s.attributes, "class")
  }

  function SectionsOrEmpty(sections: Option<seq<RawSection>>): seq<RawSection>
  {
    if sections.Some? then sections.value else []
  }
}
