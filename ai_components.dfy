/**
 * The component specifications the AI segmentation service derives from a
 * segmentation: sections grouped by component type, and per group the
 * elements every instance shares, the numbered variations and the
 * suggested props.
 */
module AiComponents {
  import opened Wrappers
  import Text
  import Collections
  import BackgroundTypes
  import opened AiSegmentation

  // ---------------------------------------------------------------------------
  // findCommonElements

  predicate InAll(e: string, g: seq<Segment>)
  {
    forall j :: 0 <= j < |g| ==> e in g[j].elements
  }

  /** `element => elementSets.every(set => set.has(element))`. */
  function InAllOf(g: seq<Segment>): string -> bool
  {
    e => InAll(e, g)
  }

  function CommonElements(g: seq<Segment>): seq<string>
  {
    if g == [] then [] else Collections.Filter(Collections.Dedup(g[0].elements), InAllOf(g))
  }

  /**
   * The common elements are, without duplicates and in the order the first
   * instance lists them, exactly the elements every instance lists; no
   * instances give none.
   */
  lemma CommonElementsSpec(g: seq<Segment>)
    ensures var r := CommonElements(g);
      && Collections.Distinct(r)
      && (forall e :: e in r <==> g != [] && InAll(e, g))
  {
    if g != [] {
      var r := CommonElements(g);
      Collections.DedupDistinct(g[0].elements);
      Collections.FilterDistinct(Collections.Dedup(g[0].elements), InAllOf(g));
      forall e | InAll(e, g) ensures e in r {
        assert e in g[0].elements;
      }
    }
  }

  /** `findCommonElements(instances)`. */
  method FindCommonElements(instances: seq<Segment>) returns (common: seq<string>)
    ensures common == CommonElements(instances)
  {
    if |instances| == 0 {
      return [];
    }
    common := KeepListedByAll(Collections.Dedup(instances[0].elements), instances);
  }

  /** The walk over the first instance's set: keep each element every instance lists. */
  method KeepListedByAll(first: seq<string>, instances: seq<Segment>) returns (common: seq<string>)
    ensures common == Collections.Filter(first, InAllOf(instances))
  {
    common := [];
    var k := 0;
    while k < |first|
      invariant 0 <= k <= |first|
      invariant common == Collections.Filter(first[..k], InAllOf(instances))
    {
      var inAll := ListedByAll(first[k], instances);
      CommonStep(first, k, instances, inAll);
      ghost var next := Collections.Filter(first[..k + 1], InAllOf(instances));
      if inAll {
        common := common + [first[k]];
      }
      assert common == next;
      k := k + 1;
    }
    Collections.PrefixFull(first, k);
  }

  lemma CommonStep(first: seq<string>, k: nat, instances: seq<Segment>, inAll: bool)
    requires k < |first| && inAll == InAll(first[k], instances)
    ensures Collections.Filter(first[..k + 1], InAllOf(instances))
      == Collections.Filter(first[..k], InAllOf(instances)) + (if inAll then [first[k]] else [])
  {
    Collections.FilterStep(first, k, InAllOf(instances));
  }

  /** The `every` test of `findCommonElements` for one element. */
  method ListedByAll(e: string, instances: seq<Segment>) returns (inAll: bool)
    ensures inAll == InAll(e, instances)
  {
    inAll := true;
    var j := 0;
    while j < |instances|
      invariant 0 <= j <= |instances|
      invariant inAll <==> forall m :: 0 <= m < j ==> e in instances[m].elements
    {
      inAll := inAll && e in instances[j].elements;
      j := j + 1;
    }
  }

  // ---------------------------------------------------------------------------
  // identifyVariations

  datatype Variation = Variation(id: nat, elements: seq<string>, bounds: Option<BackgroundTypes.Box>, content: string)

  /** One variation per instance, numbered from 1 in input order, each carrying its instance's fields. */
  function Variations(g: seq<Segment>): (vs: seq<Variation>)
    ensures |vs| == |g|
    ensures forall j :: 0 <= j < |g| ==>
      vs[j] == Variation(j + 1, g[j].elements, g[j].bounds, g[j].content)
  {
    seq(|g|, j requires 0 <= j < |g| => Variation(j + 1, g[j].elements, g[j].bounds, g[j].content))
  }

  /** `identifyVariations(instances)`: the `forEach` pushing one record per instance. */
  method IdentifyVariations(instances: seq<Segment>) returns (variations: seq<Variation>)
    ensures variations == Variations(instances)
  {
    variations := [];
    var i := 0;
    while i < |instances|
      invariant 0 <= i <= |instances|
      invariant variations == Variations(instances[..i])
    {
      var s := instances[i];
      variations := variations + [Variation(i + 1, s.elements, s.bounds, s.content)];
      i := i + 1;
    }
    Collections.PrefixFull(instances, i);
  }

  /** The variation ids are distinct. */
  lemma VariationIdsDistinct(g: seq<Segment>, i: nat, j: nat)
    requires i < j < |g|
    ensures Variations(g)[i].id < Variations(g)[j].id
  {
  }

  // ---------------------------------------------------------------------------
  // inferProps

  const TitleProp := "title"
  const ImageProp := "imageUrl"
  const ButtonProp := "onButtonClick"
  const LinkProp := "href"
  const TextProp := "text"

  /** The props one element name suggests, in the order the code tests them. */
  function ElementProps(e: string): seq<string>
  {
    (if Text.Contains(e, "button") then [ButtonProp] else [])
    + (if Text.Contains(e, "link") then [LinkProp] else [])
    + (if Text.Contains(e, "text") then [TextProp] else [])
  }

  function ElementPropLists(es: seq<string>): (ls: seq<seq<string>>)
    ensures |ls| == |es| && forall j :: 0 <= j < |es| ==> ls[j] == ElementProps(es[j])
  {
    seq(|es|, j requires 0 <= j < |es| => ElementProps(es[j]))
  }

  /** The props the content of an instance suggests. */
  function ContentProps(s: Segment): seq<string>
  {
    (if Text.Contains(s.content, "title") then [TitleProp] else [])
    + (if Text.Contains(s.content, "image") then [ImageProp] else [])
  }

  /** The props one instance suggests, in the order the code adds them. */
  function InstanceProps(s: Segment): seq<string>
  {
    ContentProps(s) + Collections.Concat(ElementPropLists(s.elements))
  }

  function PropLists(g: seq<Segment>): (ls: seq<seq<string>>)
    ensures |ls| == |g| && forall j :: 0 <= j < |g| ==> ls[j] == InstanceProps(g[j])
  {
    seq(|g|, j requires 0 <= j < |g| => InstanceProps(g[j]))
  }

  /** `Array.from(props)`: the suggested props in order of first suggestion. */
  function PropsOf(g: seq<Segment>): seq<string>
  {
    Collections.Dedup(Collections.Concat(PropLists(g)))
  }

  lemma PropsMembers(g: seq<Segment>, p: string)
    ensures p in PropsOf(g) <==> exists j :: 0 <= j < |g| && p in InstanceProps(g[j])
  {
    var ls := PropLists(g);
    assert p in Collections.Concat(ls) <==> exists j :: 0 <= j < |ls| && p in ls[j];
  }

  lemma ElementPropsMembers(es: seq<string>, p: string)
    ensures p in Collections.Concat(ElementPropLists(es)) <==> exists k :: 0 <= k < |es| && p in ElementProps(es[k])
  {
    var ls := ElementPropLists(es);
    assert p in Collections.Concat(ls) <==> exists k :: 0 <= k < |ls| && p in ls[k];
  }

  /** The props carry no repetition and hold nothing outside the five names. */
  lemma PropsRange(g: seq<Segment>)
    ensures Collections.Distinct(PropsOf(g))
    ensures forall p :: p in PropsOf(g) ==> p in PropNames
  {
    Collections.DedupDistinct(Collections.Concat(PropLists(g)));
    forall p | p in PropsOf(g) ensures p in PropNames {
      PropsMembers(g, p);
      var j :| 0 <= j < |g| && p in InstanceProps(g[j]);
      InstancePropsRange(g[j], p);
    }
  }

  const PropNames := [TitleProp, ImageProp, ButtonProp, LinkProp, TextProp]

  lemma InstancePropsRange(s: Segment, p: string)
    requires p in InstanceProps(s)
    ensures p in PropNames
  {
    if p !in ContentProps(s) {
      ElementPropsMembers(s.elements, p);
    }
  }

  /** `title` is a prop exactly when some instance's content mentions a title. */
  lemma TitlePropSpec(g: seq<Segment>)
    ensures TitleProp in PropsOf(g) <==> exists j :: 0 <= j < |g| && Text.Contains(g[j].content, "title")
  {
    PropsMembers(g, TitleProp);
    forall j | 0 <= j < |g|
      ensures TitleProp in InstanceProps(g[j]) <==> Text.Contains(g[j].content, "title")
    {
      TitleFromContent(g[j]);
    }
  }

  lemma TitleFromContent(s: Segment)
    ensures TitleProp in InstanceProps(s) <==> Text.Contains(s.content, "title")
  {
    ElementPropsMembers(s.elements, TitleProp);
    assert forall e :: TitleProp !in ElementProps(e);
  }

  /** `onButtonClick` is a prop exactly when some instance lists an element mentioning a button. */
  lemma ButtonPropSpec(g: seq<Segment>)
    ensures ButtonProp in PropsOf(g) <==>
      exists j, k :: 0 <= j < |g| && 0 <= k < |g[j].elements| && Text.Contains(g[j].elements[k], "button")
  {
    PropsMembers(g, ButtonProp);
    forall j | 0 <= j < |g|
      ensures ButtonProp in InstanceProps(g[j]) <==>
        exists k :: 0 <= k < |g[j].elements| && Text.Contains(g[j].elements[k], "button")
    {
      ButtonFromElements(g[j]);
    }
  }

  lemma ButtonFromElements(s: Segment)
    ensures ButtonProp in InstanceProps(s) <==>
      exists k :: 0 <= k < |s.elements| && Text.Contains(s.elements[k], "button")
  {
    ElementPropsMembers(s.elements, ButtonProp);
    assert ButtonProp !in ContentProps(s);
  }

  /** `inferProps(instances)`: a set filled instance by instance. */
  method InferProps(instances: seq<Segment>) returns (props: seq<string>)
    ensures props == PropsOf(instances)
  {
    var lists := PropLists(instances);
    props := [];
    var i := 0;
    while i < |instances|
      invariant 0 <= i <= |instances|
      invariant props == Collections.Dedup(Collections.Concat(lists[..i]))
    {
      Collections.DedupConcatStep(lists, i);
      props := AddInstanceProps(props, instances[i]);
      i := i + 1;
    }
    Collections.PrefixFull(lists, i);
  }

  /** The body of the `forEach` over the instances: the content tests, then the elements. */
  method AddInstanceProps(start: seq<string>, s: Segment) returns (props: seq<string>)
    ensures props == Collections.AddAll(start, InstanceProps(s))
  {
    props := Collections.AddAll(start, ContentProps(s));
    props := AddElementProps(props, s.elements);
    Collections.AddAllConcat(start, ContentProps(s), Collections.Concat(ElementPropLists(s.elements)));
  }

  /** The inner loop of `inferProps`: the props each element name suggests. */
  method AddElementProps(start: seq<string>, es: seq<string>) returns (props: seq<string>)
    ensures props == Collections.AddAll(start, Collections.Concat(ElementPropLists(es)))
  {
    var ls := ElementPropLists(es);
    props := start;
    var j := 0;
    while j < |es|
      invariant 0 <= j <= |es|
      invariant props == Collections.AddAll(start, Collections.Concat(ls[..j]))
    {
      ElementStep(start, ls, j);
      props := Collections.AddAll(props, ElementProps(es[j]));
      j := j + 1;
    }
    Collections.PrefixFull(ls, j);
  }

  lemma ElementStep(start: seq<string>, ls: seq<seq<string>>, j: nat)
    requires j < |ls|
    ensures Collections.AddAll(Collections.AddAll(start, Collections.Concat(ls[..j])), ls[j])
      == Collections.AddAll(start, Collections.Concat(ls[..j + 1]))
  {
    assert ls[..j + 1][..j] == ls[..j];
    assert Collections.Concat(ls[..j + 1]) == Collections.Concat(ls[..j]) + ls[j];
    Collections.AddAllConcat(start, Collections.Concat(ls[..j]), ls[j]);
  }

  // ---------------------------------------------------------------------------
  // analyzeComponents

  /** A reusable component: a type, its instance count and what its instances share. */
  datatype AiComponent = AiComponent(kind: string, instances: nat, commonElements: seq<string>,
                                     variations: seq<Variation>, props: seq<string>)

  function BuildComponent(t: string, g: seq<Segment>): (c: AiComponent)
    ensures c.kind == t && c.instances == |g| && c.variations == Variations(g)
  {
    AiComponent(t, |g|, CommonElements(g), Variations(g), PropsOf(g))
  }

  // The grouping is stated for any classifier `classify`; the service uses
  // `ComponentTypeAsWritten`.

  /** The component type of every section, in order. */
  function TypesOf(ss: seq<Segment>, classify: Segment -> string): seq<string>
  {
    Collections.KeysOf(ss, classify)
  }

  /** The components of a list of sections: types in order of first appearance. */
  function ComponentsBy(ss: seq<Segment>, classify: Segment -> string): seq<AiComponent>
  {
    Collections.GroupsBy(Collections.Dedup(TypesOf(ss, classify)), ss, classify, BuildComponent)
  }

  function Components(ss: seq<Segment>): seq<AiComponent>
  {
    ComponentsBy(ss, ComponentTypeAsWritten)
  }

  function SumInstances(cs: seq<AiComponent>): nat
  {
    if cs == [] then 0 else cs[0].instances + SumInstances(cs[1..])
  }

  lemma {:induction false} SumInstancesCounts(cs: seq<AiComponent>, ts: seq<string>, m: multiset<string>)
    requires |cs| == |ts|
    requires forall i :: 0 <= i < |cs| ==> cs[i].instances == m[ts[i]]
    ensures SumInstances(cs) == Collections.SumCounts(ts, m)
    decreases |cs|
  {
    if cs != [] {
      SumInstancesCounts(cs[1..], ts[1..], m);
    }
  }

  /**
   * One component per distinct component type, in order of first
   * appearance; each is built from exactly the sections of its type and
   * counts them.
   */
  lemma ComponentsSpec(ss: seq<Segment>, classify: Segment -> string)
    ensures var cs, ts := ComponentsBy(ss, classify), Collections.Dedup(TypesOf(ss, classify));
      && |cs| == |ts|
      && (forall i :: 0 <= i < |cs| ==> cs[i] == BuildComponent(ts[i], Collections.Group(ss, classify, ts[i])))
      && (forall i :: 0 <= i < |cs| ==> cs[i].instances == multiset(TypesOf(ss, classify))[ts[i]] > 0)
  {
    var ts := Collections.Dedup(TypesOf(ss, classify));
    Collections.GroupsByLength(ts, ss, classify, BuildComponent);
    forall i | 0 <= i < |ts|
      ensures ComponentsBy(ss, classify)[i] == BuildComponent(ts[i], Collections.Group(ss, classify, ts[i]))
      ensures ComponentsBy(ss, classify)[i].instances == multiset(TypesOf(ss, classify))[ts[i]] > 0
    {
      Collections.GroupsByAt(ts, ss, classify, BuildComponent, i);
      Collections.GroupNonEmpty(ss, classify, ts[i]);
    }
  }

  /** No two components share a type, and the instance counts add up to the number of sections. */
  lemma ComponentsPartition(ss: seq<Segment>, classify: Segment -> string)
    ensures var cs := ComponentsBy(ss, classify);
      forall i, j :: 0 <= i < j < |cs| ==> cs[i].kind != cs[j].kind
    ensures SumInstances(ComponentsBy(ss, classify)) == |ss|
  {
    var cs, ts := ComponentsBy(ss, classify), Collections.Dedup(TypesOf(ss, classify));
    Collections.DedupDistinct(TypesOf(ss, classify));
    ComponentsSpec(ss, classify);
    SumInstancesCounts(cs, ts, multiset(TypesOf(ss, classify)));
    Collections.GroupSizesSum(TypesOf(ss, classify));
  }

  /** `analyzeComponents(segments)`: group the sections by component type, then describe each group. */
  method AnalyzeComponents(segments: Segmentation) returns (components: seq<AiComponent>)
    ensures components == Components(segments.sections)
  {
    var keys, componentTypes := GroupByType(segments.sections, ComponentTypeAsWritten);
    GroupStateKeys(segments.sections, ComponentTypeAsWritten, keys, componentTypes);
    components := DescribeGroups(segments.sections, ComponentTypeAsWritten, keys, componentTypes);
  }

  /** The first pass of `analyzeComponents`: each section pushed onto its component type's list. */
  method GroupByType(ss: seq<Segment>, classify: Segment -> string)
    returns (keys: seq<string>, componentTypes: map<string, seq<Segment>>)
    ensures Collections.GroupState(keys, componentTypes, ss, classify)
  {
    keys := [];
    componentTypes := map[];
    var i := 0;
    while i < |ss|
      invariant 0 <= i <= |ss|
      invariant Collections.GroupState(keys, componentTypes, ss[..i], classify)
    {
      var t := classify(ss[i]);
      Collections.PrefixStep(ss, i);
      Collections.PushGroupState(keys, componentTypes, ss[..i], ss[i], ss[..i + 1], classify);
      var sofar := if t in componentTypes then componentTypes[t] else [];
      componentTypes := componentTypes[t := sofar + [ss[i]]];
      keys := Collections.Add(keys, t);
      i := i + 1;
    }
    Collections.PrefixFull(ss, i);
  }

  /** The second pass of `analyzeComponents`: one specification per group, in key order. */
  method DescribeGroups(ss: seq<Segment>, classify: Segment -> string,
                        keys: seq<string>, componentTypes: map<string, seq<Segment>>)
    returns (components: seq<AiComponent>)
    requires KeysGrouped(ss, classify, keys, componentTypes)
    ensures components == Collections.GroupsBy(keys, ss, classify, BuildComponent)
  {
    components := [];
    var k := 0;
    while k < |keys|
      invariant 0 <= k <= |keys|
      invariant components == Collections.GroupsBy(keys[..k], ss, classify, BuildComponent)
    {
      var t := keys[k];
      DescribeStep(ss, classify, keys, componentTypes, k);
      var instances := componentTypes[t];
      if |instances| > 0 {
        var component := DescribeGroup(t, instances);
        components := components + [component];
      }
      k := k + 1;
    }
    Collections.PrefixFull(keys, k);
  }

  /** Every key has its group in the map. */
  ghost predicate KeysGrouped(ss: seq<Segment>, classify: Segment -> string,
                              keys: seq<string>, componentTypes: map<string, seq<Segment>>)
  {
    forall k :: 0 <= k < |keys| ==> keys[k] in componentTypes && componentTypes[keys[k]] == Collections.Group(ss, classify, keys[k])
  }

  lemma GroupStateKeys(ss: seq<Segment>, classify: Segment -> string,
                       keys: seq<string>, componentTypes: map<string, seq<Segment>>)
    requires Collections.GroupState(keys, componentTypes, ss, classify)
    ensures KeysGrouped(ss, classify, keys, componentTypes)
    ensures keys == Collections.Dedup(TypesOf(ss, classify))
  {
    forall k | 0 <= k < |keys|
      ensures keys[k] in componentTypes
    {
      assert keys[k] in Collections.Dedup(Collections.KeysOf(ss, classify));
    }
  }

  /** The group the map holds for the `k`-th key, and what describing it adds. */
  lemma DescribeStep(ss: seq<Segment>, classify: Segment -> string,
                     keys: seq<string>, componentTypes: map<string, seq<Segment>>, k: nat)
    requires KeysGrouped(ss, classify, keys, componentTypes) && k < |keys|
    ensures keys[k] in componentTypes && componentTypes[keys[k]] == Collections.Group(ss, classify, keys[k])
    ensures var g := componentTypes[keys[k]];
      Collections.GroupsBy(keys[..k + 1], ss, classify, BuildComponent)
        == Collections.GroupsBy(keys[..k], ss, classify, BuildComponent) + (if |g| > 0 then [BuildComponent(keys[k], g)] else [])
  {
    assert keys[k] in componentTypes;
    Collections.GroupsByStep(keys, k, ss, classify, BuildComponent);
  }

  /** The specification of one group: its type, count, common elements, variations and props. */
  method DescribeGroup(t: string, instances: seq<Segment>) returns (c: AiComponent)
    ensures c == BuildComponent(t, instances)
  {
    var common := FindCommonElements(instances);
    var variations := IdentifyVariations(instances);
    var props := InferProps(instances);
    c := AiComponent(t, |instances|, common, variations, props);
  }
}
