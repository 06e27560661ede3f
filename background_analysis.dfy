/**
 * How the background service worker turns the content script's page
 * analysis into the stored route analysis: sections are normalised, grouped
 * by component type and summarised as component records; a missing or
 * failed analysis becomes the fallback record.
 */
module BackgroundAnalysis {
  import opened Wrappers
  import opened Collections
  import Text
  import opened BackgroundTypes
  import opened ComponentType
  import opened ComponentParts

  // ---------------------------------------------------------------------------
  // extractComponents: specification
  //
  // The grouping is stated for any classifier `classify`; the service worker
  // uses `IdentifyComponentType`.

  /** The component type of every section, in order. */
  function TypesOf(ss: seq<RawSection>, classify: RawSection -> string): seq<string>
  {
    KeysOf(ss, classify)
  }

  /** The variation records of a group: ids 1..n in input order. */
  function Variations(g: seq<RawSection>): (vs: seq<Variation>)
    ensures |vs| == |g|
    ensures forall j :: 0 <= j < |g| ==> vs[j].id == j + 1 && vs[j].bounds == g[j].bounds
  {
    seq(|g|, j requires 0 <= j < |g| =>
      Variation(j + 1, ElementsOrEmpty(g[j].elements), g[j].bounds, ContentOf(g[j]), g[j].attributes))
  }

  /** The record of one type and its instances. */
  function BuildComponent(t: string, g: seq<RawSection>): (c: Component)
    ensures c.kind == t && c.instances == |g| && |c.variations| == |g|
  {
    Component(t, |g|, CommonElements(g), Variations(g), PropsOf(g, t), CssClassesOf(g), ComplexityOf(g))
  }

  /** The components of a list of sections: types in order of first appearance. */
  function ComponentsBy(ss: seq<RawSection>, classify: RawSection -> string): seq<Component>
  {
    GroupsBy(Dedup(TypesOf(ss, classify)), ss, classify, BuildComponent)
  }

  function ComponentsOf(ss: seq<RawSection>): seq<Component>
  {
    ComponentsBy(ss, IdentifyComponentType)
  }

  function SumInstances(cs: seq<Component>): nat
  {
    if cs == [] then 0 else cs[0].instances + SumInstances(cs[1..])
  }

  lemma {:induction false} SumInstancesCounts(cs: seq<Component>, ts: seq<string>, m: multiset<string>)
    requires |cs| == |ts|
    requires forall i :: 0 <= i < |cs| ==> cs[i].instances == m[ts[i]]
    ensures SumInstances(cs) == SumCounts(ts, m)
    decreases |cs|
  {
    if cs != [] {
      SumInstancesCounts(cs[1..], ts[1..], m);
    }
  }

  /** The `i`-th component is built from the `i`-th distinct type and its sections. */
  lemma ComponentAt(ss: seq<RawSection>, classify: RawSection -> string, i: nat)
    requires i < |Dedup(TypesOf(ss, classify))|
    ensures var cs, ts := ComponentsBy(ss, classify), Dedup(TypesOf(ss, classify));
      && i < |cs|
      && cs[i] == BuildComponent(ts[i], Group(ss, classify, ts[i]))
      && cs[i].kind == ts[i]
      && cs[i].instances == multiset(TypesOf(ss, classify))[ts[i]] > 0
  {
    var ts := Dedup(TypesOf(ss, classify));
    GroupsByAt(ts, ss, classify, BuildComponent, i);
    GroupNonEmpty(ss, classify, ts[i]);
  }

  /**
   * One component per distinct section type, in order of first appearance;
   * each component counts the sections of its type and numbers them 1..n as
   * variations.
   */
  lemma ComponentsBySpec(ss: seq<RawSection>, classify: RawSection -> string)
    ensures var cs, ts := ComponentsBy(ss, classify), Dedup(TypesOf(ss, classify));
      && |cs| == |ts|
      && (forall i :: 0 <= i < |cs| ==> cs[i] == BuildComponent(ts[i], Group(ss, classify, ts[i])))
      && (forall i :: 0 <= i < |cs| ==> cs[i].kind == ts[i])
      && (forall i :: 0 <= i < |cs| ==> cs[i].instances == multiset(TypesOf(ss, classify))[ts[i]] > 0)
      && (forall i, j :: 0 <= i < |cs| && 0 <= j < |cs[i].variations| ==> cs[i].variations[j].id == j + 1)
  {
    var ts := Dedup(TypesOf(ss, classify));
    GroupsByLength(ts, ss, classify, BuildComponent);
    forall i | 0 <= i < |ts| {
      ComponentAt(ss, classify, i);
    }
  }

  /** Grouping loses no section: the instance counts add up to the number of sections. */
  lemma InstancesSumToSections(ss: seq<RawSection>, classify: RawSection -> string)
    ensures SumInstances(ComponentsBy(ss, classify)) == |ss|
  {
    var cs, ts := ComponentsBy(ss, classify), Dedup(TypesOf(ss, classify));
    DedupDistinct(TypesOf(ss, classify));
    ComponentsBySpec(ss, classify);
    SumInstancesCounts(cs, ts, multiset(TypesOf(ss, classify)));
    GroupSizesSum(TypesOf(ss, classify));
  }

  /** No two components share a type. */
  lemma ComponentKindsDistinct(ss: seq<RawSection>, classify: RawSection -> string, i: nat, j: nat)
    requires i < j < |ComponentsBy(ss, classify)|
    ensures ComponentsBy(ss, classify)[i].kind != ComponentsBy(ss, classify)[j].kind
  {
    var ts := Dedup(TypesOf(ss, classify));
    DedupDistinct(TypesOf(ss, classify));
    GroupsByLength(ts, ss, classify, BuildComponent);
    ComponentAt(ss, classify, i);
    ComponentAt(ss, classify, j);
  }

  /** Every section's type has a component. */
  lemma ComponentForEverySection(ss: seq<RawSection>, classify: RawSection -> string, s: RawSection)
    requires s in ss
    ensures exists i :: 0 <= i < |ComponentsBy(ss, classify)| && ComponentsBy(ss, classify)[i].kind == classify(s)
  {
    var ts := Dedup(TypesOf(ss, classify));
    GroupsByLength(ts, ss, classify, BuildComponent);
    var k :| 0 <= k < |ss| && ss[k] == s;
    assert TypesOf(ss, classify)[k] == classify(s);
    assert classify(s) in ts;
    var i :| 0 <= i < |ts| && ts[i] == classify(s);
    ComponentAt(ss, classify, i);
    assert ComponentsBy(ss, classify)[i].kind == classify(s);
  }

  /** A component's variations are exactly the sections of its type, in input order. */
  lemma VariationsAreTheGroup(ss: seq<RawSection>, classify: RawSection -> string, i: nat, s: RawSection)
    requires i < |ComponentsBy(ss, classify)|
    ensures var c := ComponentsBy(ss, classify)[i];
      && c.variations == Variations(Group(ss, classify, c.kind))
      && (s in Group(ss, classify, c.kind) <==> s in ss && classify(s) == c.kind)
  {
    ComponentsBySpec(ss, classify);
    GroupMembers(ss, classify, ComponentsBy(ss, classify)[i].kind, s);
  }

  // ---------------------------------------------------------------------------
  // extractComponents

  /** The first pass of `extractComponents`: each section pushed onto its type's list. */
  method GroupByType(ss: seq<RawSection>, classify: RawSection -> string)
    returns (keys: seq<string>, patterns: map<string, seq<RawSection>>)
    ensures GroupState(keys, patterns, ss, classify)
  {
    keys := [];
    patterns := map[];
    var i := 0;
    while i < |ss|
      invariant 0 <= i <= |ss|
      invariant GroupState(keys, patterns, ss[..i], classify)
    {
      var t := classify(ss[i]);
      PrefixStep(ss, i);
      PushGroupState(keys, patterns, ss[..i], ss[i], ss[..i + 1], classify);
      var sofar := if t in patterns then patterns[t] else [];
      patterns := patterns[t := sofar + [ss[i]]];
      keys := Add(keys, t);
      i := i + 1;
    }
    PrefixFull(ss, i);
  }

  /**
   * What `extractComponents` returns or throws: the records of the groups,
   * unless a section carries the `{direct, all}` count object, on which
   * `findCommonElements` throws.
   */
  function ComponentsByAsWritten(ss: seq<RawSection>, classify: RawSection -> string): Result<seq<Component>>
  {
    if HasCountObject(ss) then Err(NotIterableMessage) else Ok(ComponentsBy(ss, classify))
  }

  function ExtractedComponents(ss: seq<RawSection>): Result<seq<Component>>
  {
    ComponentsByAsWritten(ss, IdentifyComponentType)
  }

  /** A count object in one type's list is a count object among the sections. */
  lemma CountObjectInGroup(ss: seq<RawSection>, classify: RawSection -> string,
                           keys: seq<string>, patterns: map<string, seq<RawSection>>, k: nat)
    requires GroupState(keys, patterns, ss, classify) && k < |keys|
    requires keys[k] in patterns && HasCountObject(patterns[keys[k]])
    ensures HasCountObject(ss)
  {
    var g := patterns[keys[k]];
    var m :| 0 <= m < |g| && g[m].elements.ElementCounts?;
    assert g[m] in ss;
    var i :| 0 <= i < |ss| && ss[i] == g[m];
    assert ss[i].elements.ElementCounts?;
  }

  /** None of the first `k` types' lists holds a count object. */
  predicate NoCountObjectBefore(keys: seq<string>, patterns: map<string, seq<RawSection>>, k: nat)
    requires k <= |keys|
  {
    forall j :: 0 <= j < k ==> keys[j] in patterns && !HasCountObject(patterns[keys[j]])
  }

  /** When no type's list holds a count object, no section does. */
  lemma NoCountObjectInGroups(ss: seq<RawSection>, classify: RawSection -> string,
                              keys: seq<string>, patterns: map<string, seq<RawSection>>)
    requires GroupState(keys, patterns, ss, classify)
    requires NoCountObjectBefore(keys, patterns, |keys|)
    ensures !HasCountObject(ss)
  {
    if HasCountObject(ss) {
      var i :| 0 <= i < |ss| && ss[i].elements.ElementCounts?;
      var j := GroupsByCovers(ss, classify, BuildComponent, ss[i]);
      GroupMembers(ss, classify, keys[j], ss[i]);
    }
  }

  /**
   * The second pass of `extractComponents`: one record per non-empty group,
   * in key order, until a group holding a count object throws.
   */
  method BuildComponents(ss: seq<RawSection>, classify: RawSection -> string,
                         keys: seq<string>, patterns: map<string, seq<RawSection>>)
    returns (r: Result<seq<Component>>)
    requires GroupState(keys, patterns, ss, classify)
    ensures r == ComponentsByAsWritten(ss, classify)
  {
    var components := [];
    var k := 0;
    while k < |keys|
      invariant 0 <= k <= |keys|
      invariant components == GroupsBy(keys[..k], ss, classify, BuildComponent)
      invariant NoCountObjectBefore(keys, patterns, k)
    {
      var next := BuildNext(ss, classify, keys, patterns, k, components);
      if next.Err? {
        CountObjectInGroup(ss, classify, keys, patterns, k);
        return Err(NotIterableMessage);
      }
      components := next.value;
      assert NoCountObjectBefore(keys, patterns, k + 1);
      k := k + 1;
    }
    PrefixFull(keys, k);
    NoCountObjectInGroups(ss, classify, keys, patterns);
    r := Ok(components);
  }

  /** One turn of the second pass: the `k`-th type's record, when its list is non-empty, or the throw. */
  method BuildNext(ss: seq<RawSection>, classify: RawSection -> string,
                   keys: seq<string>, patterns: map<string, seq<RawSection>>, k: nat, components: seq<Component>)
    returns (r: Result<seq<Component>>)
    requires GroupState(keys, patterns, ss, classify) && k < |keys|
    requires components == GroupsBy(keys[..k], ss, classify, BuildComponent)
    ensures keys[k] in patterns
    ensures r.Err? <==> HasCountObject(patterns[keys[k]])
    ensures r.Ok? ==> r.value == GroupsBy(keys[..k + 1], ss, classify, BuildComponent)
  {
    GroupStateStep(keys, patterns, ss, classify, BuildComponent, k);
    var instances := patterns[keys[k]];
    if |instances| > 0 {
      var c := BuildOne(keys[k], instances);
      if c.Err? {
        return Err(c.error);
      }
      r := Ok(components + [c.value]);
    } else {
      r := Ok(components);
    }
  }

  /** One component record, built from its type's sections; `findCommonElements` throws on a count object. */
  method BuildOne(t: string, instances: seq<RawSection>) returns (r: Result<Component>)
    requires |instances| > 0
    ensures r.Err? <==> HasCountObject(instances)
    ensures r.Ok? ==> r.value == BuildComponent(t, instances)
  {
    var common := FindCommonElementsOrThrow(instances);
    if common.Err? {
      return Err(common.error);
    }
    var props := InferProps(instances, t);
    var css := ExtractCssClasses(instances);
    var cx := CalculateComplexity(instances);
    r := Ok(Component(t, |instances|, common.value, Variations(instances), props, css, cx));
  }

  /** `extractComponents(domAnalysis)`: group by type, then build one record per group. */
  method ExtractComponents(sections: Option<seq<RawSection>>) returns (r: Result<seq<Component>>)
    ensures r == ExtractedComponents(SectionsOrEmpty(sections))
  {
    var ss := SectionsOrEmpty(sections);
    var keys, patterns := GroupByType(ss, IdentifyComponentType);
    r := BuildComponents(ss, IdentifyComponentType, keys, patterns);
  }

  // ---------------------------------------------------------------------------
  // processDetailedAnalysis and the fallback records

  /** One entry of the `sectionsArray.map(...)` of `processDetailedAnalysis`. */
  function NormalizeSection(s: RawSection, index: nat): Section
  {
    Section(
      "section-" + Text.NatToString(index),
      if s.kind == "" then "unknown" else s.kind,
      if s.tagName == "" then "div" else s.tagName,
      if s.bounds.Some? then s.bounds.value else ZeroBox,
      ElementsOrEmpty(s.elements),
      ContentOf(s),
      s.attributes,
      s.styles,
      s.children,
      s.depth)
  }

  /** `route.title || route.url`. */
  function TitleOf(route: Route): (t: string)
    ensures route.title != "" ==> t == route.title
    ensures route.title == "" ==> t == route.url
  {
    if route.title != "" then route.title else route.url
  }

  /** `generateFallbackAnalysis(route, errorMessage)`. */
  function GenerateFallbackAnalysis(route: Route, message: string): (r: RouteAnalysis)
    ensures r.error == Some(message) && r.analysis == FallbackSummary(message)
    ensures r.analysis.ConfidencePct() == 10 && r.analysis.Source() == "fallback"
    ensures r.components == [] && |r.sections| == 1 && r.sections[0].ErrorSection?
    ensures r.sections[0].bounds == ZeroBox
    ensures Text.StartsWith(r.sections[0].message, "Analysis failed: ")
    ensures r.route == route.url
  {
    RouteAnalysis(route.url, TitleOf(route), Some(message),
      [ErrorSection("Analysis failed: " + message, ZeroBox)], [], FallbackSummary(message))
  }

  /** `createFallbackAnalysis()`: an empty page analysis that carries an error. */
  function CreateFallbackAnalysis(): (d: DomAnalysis)
    ensures d.error != "" && d.sections == Some([]) && d.totalElements == 0
  {
    DomAnalysis(Some([]), 0, "Content script communication failed")
  }

  /** The `sectionsArray.map(...)` of `processDetailedAnalysis`. */
  function NormalizeSections(raw: seq<RawSection>): (r: seq<Section>)
    ensures |r| == |raw|
    ensures forall i :: 0 <= i < |raw| ==> r[i].Section? && r[i].id == "section-" + Text.NatToString(i)
    ensures forall i :: 0 <= i < |raw| ==> r[i].kind == (if raw[i].kind == "" then "unknown" else raw[i].kind)
    ensures forall i :: 0 <= i < |raw| ==> r[i].tagName == (if raw[i].tagName == "" then "div" else raw[i].tagName)
    ensures forall i :: 0 <= i < |raw| ==> r[i].bounds == (if raw[i].bounds.Some? then raw[i].bounds.value else ZeroBox)
    ensures forall i :: 0 <= i < |raw| ==> r[i].content == ContentOf(raw[i]) && r[i].elements == ElementsOrEmpty(raw[i].elements)
  {
    seq(|raw|, i requires 0 <= i < |raw| => NormalizeSection(raw[i], i))
  }

  /**
   * The record `processDetailedAnalysis` would build if `findCommonElements`
   * read the `{direct, all}` count object instead of throwing on it: the
   * corrected pipeline, built on `ComponentsOf`.
   */
  function DetailedAnalysis(dom: Option<DomAnalysis>, route: Route): (r: RouteAnalysis)
    ensures dom.None? ==> r == GenerateFallbackAnalysis(route, "DOM analysis failed")
    ensures dom.Some? && dom.value.error != "" ==> r == GenerateFallbackAnalysis(route, dom.value.error)
    ensures dom.Some? && dom.value.error == "" ==>
      var raw := SectionsOrEmpty(dom.value.sections);
      && r.error.None? && r.route == route.url && r.title == TitleOf(route)
      && r.sections == NormalizeSections(raw)
      && r.components == ComponentsOf(raw)
      && r.analysis == DomSummary(dom.value.totalElements, |r.sections|, |r.components|)
      && r.analysis.ConfidencePct() == 90
  {
    if dom.None? then GenerateFallbackAnalysis(route, "DOM analysis failed")
    else if dom.value.error != "" then GenerateFallbackAnalysis(route, dom.value.error)
    else
      var raw := SectionsOrEmpty(dom.value.sections);
      var sections := NormalizeSections(raw);
      var components := ComponentsOf(raw);
      RouteAnalysis(route.url, TitleOf(route), None, sections, components,
        DomSummary(dom.value.totalElements, |sections|, |components|))
  }

  /**
   * `processDetailedAnalysis(domAnalysis, route)`, as written; `None` is a
   * missing analysis and `Err` is the exception `extractComponents` throws.
   */
  function ProcessDetailedAnalysis(dom: Option<DomAnalysis>, route: Route): (r: Result<RouteAnalysis>)
    ensures r.Err? <==> dom.Some? && dom.value.error == "" && HasCountObject(SectionsOrEmpty(dom.value.sections))
    ensures r.Err? ==> r.error == NotIterableMessage
    ensures r.Ok? ==> r.value == DetailedAnalysis(dom, route)
  {
    if dom.None? || dom.value.error != "" then Ok(DetailedAnalysis(dom, route))
    else
      var raw := SectionsOrEmpty(dom.value.sections);
      match ExtractedComponents(raw)
      case Err(e) => Err(e)
      case Ok(components) =>
        var sections := NormalizeSections(raw);
        Ok(RouteAnalysis(route.url, TitleOf(route), None, sections, components,
          DomSummary(dom.value.totalElements, |sections|, |components|)))
  }

  /** The stand-in analysis used when the content script cannot be reached yields the fallback record. */
  lemma FallbackAnalysisGivesFallbackRecord(route: Route)
    ensures ProcessDetailedAnalysis(Some(CreateFallbackAnalysis()), route)
      == Ok(GenerateFallbackAnalysis(route, "Content script communication failed"))
  {
  }

  /** The sections of a route analysis carry distinct ids. */
  lemma SectionIdsDistinct(dom: DomAnalysis, route: Route, i: nat, j: nat)
    requires dom.error == ""
    requires i < j < |SectionsOrEmpty(dom.sections)|
    ensures DetailedAnalysis(Some(dom), route).sections[i].id != DetailedAnalysis(Some(dom), route).sections[j].id
  {
    var r := DetailedAnalysis(Some(dom), route);
    assert r.sections == NormalizeSections(SectionsOrEmpty(dom.sections));
    var pre := "section-";
    assert r.sections[i].id == pre + Text.NatToString(i);
    assert r.sections[j].id == pre + Text.NatToString(j);
    if r.sections[i].id == r.sections[j].id {
      assert Text.NatToString(i) == (pre + Text.NatToString(i))[|pre|..];
      assert Text.NatToString(j) == (pre + Text.NatToString(j))[|pre|..];
      Text.NatToStringInjective(i, j);
    }
  }
}
