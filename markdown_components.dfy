/**
 * The component inventory behind the Markdown report: the components read
 * off each captured section, the sections grouped by type, the components
 * merged by name or by type across routes, the per-type analysis with its
 * priority, and the helpers that condense variations, refactoring
 * suggestions, shared elements and suggested props.
 */
module MarkdownComponents {
  import opened Wrappers
  import Text
  import Collections
  import MarkdownNames

  // ---------------------------------------------------------------------------
  // Processed routes

  /** The element counts of a section's content; a count the content lacks reads as 0. */
  datatype SectionCounts = SectionCounts(buttons: int, forms: int, images: int, links: int)

  /** One captured section of a processed route. */
  datatype SectionData = SectionData(kind: Option<string>, content: Option<SectionCounts>, elements: Option<seq<string>>)

  /** The scores a component's reusability analysis carries. */
  datatype Reusability = Reusability(reusabilityScore: Option<int>, consistency: Option<int>)

  /** One component a processed route lists, keyed by its type. */
  datatype RouteComponent = RouteComponent(kind: string, instances: Option<int>,
                                           reusabilityAnalysis: Option<Reusability>, props: Option<seq<string>>)

  /** A processed route: its path, its captured sections and the components it lists. */
  datatype RouteData = RouteData(route: string, sections: Option<seq<SectionData>>, components: Option<seq<RouteComponent>>)

  /** JavaScript's `n || d` on an optional number: a missing or zero number falls back to `d`. */
  function Or(n: Option<int>, d: int): int
  {
    if n.Some? && n.value != 0 then n.value else d
  }

  function Max(a: int, b: int): int
  {
    if a >= b then a else b
  }

  // ---------------------------------------------------------------------------
  // groupSectionsByType

  const UnknownType := "unknown"

  /** `section.type || 'unknown'`: a missing or empty type is 'unknown'. */
  function TypeOf(s: SectionData): (t: string)
    ensures t != ""
    ensures s.kind.Some? && s.kind.value != "" ==> t == s.kind.value
  {
    if s.kind.Some? && s.kind.value != "" then s.kind.value else UnknownType
  }

  /** `groupSectionsByType`: each section pushed onto its type's list. */
  method GroupSectionsByType(sections: seq<SectionData>)
    returns (keys: seq<string>, byType: map<string, seq<SectionData>>)
    ensures Collections.GroupState(keys, byType, sections, TypeOf)
  {
    keys := [];
    byType := map[];
    var i := 0;
    while i < |sections|
      invariant 0 <= i <= |sections|
      invariant Collections.GroupState(keys, byType, sections[..i], TypeOf)
    {
      var t := TypeOf(sections[i]);
      Collections.PrefixStep(sections, i);
      Collections.PushGroupState(keys, byType, sections[..i], sections[i], sections[..i + 1], TypeOf);
      var sofar := if t in byType then byType[t] else [];
      byType := byType[t := sofar + [sections[i]]];
      keys := Collections.Add(keys, t);
      i := i + 1;
    }
    Collections.PrefixFull(sections, i);
  }

  /**
   * The grouping partitions the sections: every section is in the list of
   * its type, every list holds only sections of its type, and no list is
   * empty.
   */
  lemma SectionsByTypeSpec(sections: seq<SectionData>, keys: seq<string>, byType: map<string, seq<SectionData>>)
    requires Collections.GroupState(keys, byType, sections, TypeOf)
    ensures forall t :: t in byType ==> byType[t] != [] && t != ""
    ensures forall s :: s in sections ==> TypeOf(s) in byType && s in byType[TypeOf(s)]
    ensures forall t, s :: t in byType && s in byType[t] ==> s in sections && TypeOf(s) == t
  {
    var ks := Collections.KeysOf(sections, TypeOf);
    forall t | t in byType
      ensures byType[t] != [] && t != ""
    {
      Collections.GroupNonEmpty(sections, TypeOf, t);
      var j :| 0 <= j < |ks| && ks[j] == t;
    }
    forall s | s in sections
      ensures TypeOf(s) in byType && s in byType[TypeOf(s)]
    {
      var j :| 0 <= j < |sections| && sections[j] == s;
      assert ks[j] == TypeOf(s);
      Collections.GroupMembers(sections, TypeOf, TypeOf(s), s);
    }
    forall t, s | t in byType && s in byType[t]
      ensures s in sections && TypeOf(s) == t
    {
      Collections.GroupMembers(sections, TypeOf, t, s);
    }
  }

  // ---------------------------------------------------------------------------
  // extractComponentsFromSection

  /** A component read off a section. */
  datatype Extracted = Extracted(kind: string, name: string, count: int, context: Option<string>, linkCount: Option<int>)

  const ButtonName := "Button"
  const FormName := "Form"
  const ImageName := "Image"
  const NavigationName := "Navigation"
  const NavigationType := "navigation"

  function CountsOf(sd: SectionData): SectionCounts
  {
    if sd.content.Some? then sd.content.value else SectionCounts(0, 0, 0, 0)
  }

  /** A component of the given kind when the section counts at least one. */
  function Counted(name: string, count: int, context: Option<string>): seq<Extracted>
  {
    if count > 0 then [Extracted(name, name, count, context, None)] else []
  }

  function NavigationOf(sd: SectionData): seq<Extracted>
  {
    if sd.kind == Some(NavigationType) then [Extracted(NavigationName, NavigationName, 1, sd.kind, Some(CountsOf(sd).links))] else []
  }

  /** `extractComponentsFromSection`: buttons, forms, images, then the navigation itself. */
  function ExtractComponentsFromSection(sd: SectionData): (r: seq<Extracted>)
    ensures forall c :: c in r ==> c.name == c.kind && c.name != "" && c.count > 0 && c.context == sd.kind
  {
    var n := CountsOf(sd);
    Counted(ButtonName, n.buttons, sd.kind) + Counted(FormName, n.forms, sd.kind)
      + Counted(ImageName, n.images, sd.kind) + NavigationOf(sd)
  }

  function NameOf(c: Extracted): string
  {
    c.name
  }

  /** The section reports a component of this name with this count. */
  predicate Reports(r: seq<Extracted>, name: string, count: int)
  {
    exists c :: c in r && c.name == name && c.count == count
  }

  /**
   * A section yields a button, form or image component exactly when it
   * counts at least one of them, carrying that count, and a navigation
   * component exactly when it is a navigation section; at most one of each,
   * always in the order button, form, image, navigation.
   */
  lemma ExtractSpec(sd: SectionData)
    ensures var r := ExtractComponentsFromSection(sd);
      var n := CountsOf(sd);
      && Collections.IsSubseq(Collections.KeysOf(r, NameOf), [ButtonName, FormName, ImageName, NavigationName])
      && (Reports(r, ButtonName, n.buttons) <==> n.buttons > 0)
      && (Reports(r, FormName, n.forms) <==> n.forms > 0)
      && (Reports(r, ImageName, n.images) <==> n.images > 0)
      && (Reports(r, NavigationName, 1) <==> sd.kind == Some(NavigationType))
  {
    var n := CountsOf(sd);
    var b, f, i, v := Counted(ButtonName, n.buttons, sd.kind), Counted(FormName, n.forms, sd.kind),
                      Counted(ImageName, n.images, sd.kind), NavigationOf(sd);
    var r := b + f + i + v;
    assert ExtractComponentsFromSection(sd) == r;
    var names := [ButtonName, FormName, ImageName, NavigationName];
    DistinctNames();
    KindsSubseq(Collections.KeysOf(b, NameOf), Collections.KeysOf(f, NameOf),
                Collections.KeysOf(i, NameOf), Collections.KeysOf(v, NameOf));
    Collections.KeysOfConcat(b, f, NameOf);
    Collections.KeysOfConcat(b + f, i, NameOf);
    Collections.KeysOfConcat(b + f + i, v, NameOf);
  }

  lemma DistinctNames()
    ensures ButtonName != FormName && ButtonName != ImageName && ButtonName != NavigationName
    ensures FormName != ImageName && FormName != NavigationName && ImageName != NavigationName
  {
    assert ButtonName[0] == 'B' && FormName[0] == 'F' && ImageName[0] == 'I' && NavigationName[0] == 'N';
  }

  /** Each part names at most its own kind, so the parts in order are a subsequence of the four kinds. */
  lemma KindsSubseq(b: seq<string>, f: seq<string>, i: seq<string>, v: seq<string>)
    requires b == [] || b == [ButtonName]
    requires f == [] || f == [FormName]
    requires i == [] || i == [ImageName]
    requires v == [] || v == [NavigationName]
    ensures Collections.IsSubseq(b + f + i + v, [ButtonName, FormName, ImageName, NavigationName])
  {
    var all := [ButtonName, FormName, ImageName, NavigationName];
    var s := b + f + i + v;
    assert all[..3] == [ButtonName, FormName, ImageName];
    assert all[..3][..2] == [ButtonName, FormName];
    assert all[..3][..2][..1] == [ButtonName];
    OneKindSubseq(b, [ButtonName]);
    AppendKind(b, [ButtonName], f, FormName);
    AppendKind(b + f, [ButtonName, FormName], i, ImageName);
    AppendKind(b + f + i, [ButtonName, FormName, ImageName], v, NavigationName);
  }

  lemma OneKindSubseq(b: seq<string>, all: seq<string>)
    requires |all| == 1 && (b == [] || b == all)
    ensures Collections.IsSubseq(b, all)
  {
    if b != [] {
      assert all[..0] == [] && b[..0] == [];
    }
  }

  /** Appending nothing, or the next kind, keeps the subsequence of the kinds so far. */
  lemma AppendKind(s: seq<string>, all: seq<string>, p: seq<string>, k: string)
    requires Collections.IsSubseq(s, all)
    requires p == [] || p == [k]
    ensures Collections.IsSubseq(s + p, all + [k])
  {
    assert (all + [k])[..|all|] == all;
    if p == [] {
      assert s + p == s;
    } else {
      assert (s + p)[..|s|] == s;
    }
  }

  // ---------------------------------------------------------------------------
  // extractUniqueComponents

  /** The components of a list of sections, in the order the sections come. */
  function SectionsComponents(ss: seq<SectionData>): (r: seq<Extracted>)
    ensures forall c :: c in r ==> c.name != ""
  {
    if ss == [] then []
    else SectionsComponents(ss[..|ss| - 1]) + ExtractComponentsFromSection(ss[|ss| - 1])
  }

  function RouteSectionsComponents(route: RouteData): seq<Extracted>
  {
    if route.sections.Some? then SectionsComponents(route.sections.value) else []
  }

  /** The components of every section of every route, in the order the routes are visited. */
  function RoutesComponents(routes: seq<RouteData>): (r: seq<Extracted>)
    ensures forall c :: c in r ==> c.name != ""
  {
    if routes == [] then []
    else RoutesComponents(routes[..|routes| - 1]) + RouteSectionsComponents(routes[|routes| - 1])
  }

  datatype UniqueComponent = UniqueComponent(name: string, elements: seq<string>, usageCount: nat)

  /** Components are merged by their lower-cased name. */
  function NameKey(c: Extracted): string
  {
    Text.LowerStr(c.name)
  }

  function UniqueKey(u: UniqueComponent): string
  {
    Text.LowerStr(u.name)
  }

  function Usage(u: UniqueComponent): int
  {
    u.usageCount
  }

  /** The merged record of the components sharing a name: the first one's spelling and how many there are. */
  function MakeUnique(k: string, g: seq<Extracted>): UniqueComponent
  {
    if g == [] then UniqueComponent(k, [], 0) else UniqueComponent(g[0].name, [], |g|)
  }

  /** The merged components, most used first. */
  function UniqueComponents(cs: seq<Extracted>): seq<UniqueComponent>
  {
    var keys := Collections.Dedup(Collections.KeysOf(cs, NameKey));
    Collections.SortDesc(Collections.GroupsBy(keys, cs, NameKey, MakeUnique), Usage)
  }

  /** The merged components are listed most used first, one entry per name compared without case. */
  lemma UniqueComponentsSorted(cs: seq<Extracted>)
    ensures var r := UniqueComponents(cs);
      && Collections.SortedDesc(r, Usage)
      && Collections.KeysDistinct(r, UniqueKey)
      && |r| == |Collections.Dedup(Collections.KeysOf(cs, NameKey))|
  {
    var ks := Collections.Dedup(Collections.KeysOf(cs, NameKey));
    var gs := Collections.GroupsBy(ks, cs, NameKey, MakeUnique);
    Collections.GroupsByKeys(cs, NameKey, MakeUnique, UniqueKey);
    Collections.KeysDistinctPermutation(gs, UniqueComponents(cs), UniqueKey);
  }

  /**
   * Each entry's usage count is the number of components with its name, its
   * spelling is one of theirs, and it carries no elements.
   */
  lemma UniqueComponentsCount(cs: seq<Extracted>)
    ensures forall u :: u in UniqueComponents(cs) ==>
      && u.elements == []
      && u.usageCount == multiset(Collections.KeysOf(cs, NameKey))[UniqueKey(u)] > 0
      && exists c :: c in cs && c.name == u.name
  {
    forall u | u in UniqueComponents(cs)
      ensures u.elements == []
      ensures u.usageCount == multiset(Collections.KeysOf(cs, NameKey))[UniqueKey(u)] > 0
      ensures exists c :: c in cs && c.name == u.name
    {
      UniqueMember(cs, u);
    }
  }

  /** One merged entry, found among the groups before sorting. */
  lemma UniqueMember(cs: seq<Extracted>, u: UniqueComponent)
    requires u in UniqueComponents(cs)
    ensures u.elements == []
    ensures u.usageCount == multiset(Collections.KeysOf(cs, NameKey))[UniqueKey(u)] > 0
    ensures exists c :: c in cs && c.name == u.name
  {
    var ks := Collections.Dedup(Collections.KeysOf(cs, NameKey));
    var gs := Collections.GroupsBy(ks, cs, NameKey, MakeUnique);
    var sorted := Collections.SortDesc(gs, Usage);
    assert sorted == UniqueComponents(cs);
    assert u in multiset(sorted);
    assert u in gs;
    var j :| 0 <= j < |gs| && gs[j] == u;
    UniqueEntry(cs, ks, j);
  }

  /** Every component has the entry of its name. */
  lemma UniqueComponentsCover(cs: seq<Extracted>)
    ensures forall c :: c in cs ==> exists u :: u in UniqueComponents(cs) && UniqueKey(u) == NameKey(c)
  {
    forall c | c in cs
      ensures exists u :: u in UniqueComponents(cs) && UniqueKey(u) == NameKey(c)
    {
      Collections.SortedGroupsCover(cs, NameKey, MakeUnique, Usage, UniqueKey, c);
    }
  }

  /** The `j`-th merged entry, before sorting, counts the components of the `j`-th name. */
  lemma UniqueEntry(cs: seq<Extracted>, ks: seq<string>, j: nat)
    requires ks == Collections.Dedup(Collections.KeysOf(cs, NameKey))
    requires j < |Collections.GroupsBy(ks, cs, NameKey, MakeUnique)|
    ensures var u := Collections.GroupsBy(ks, cs, NameKey, MakeUnique)[j];
      && u.elements == []
      && u.usageCount == multiset(Collections.KeysOf(cs, NameKey))[UniqueKey(u)] > 0
      && exists c :: c in cs && c.name == u.name
  {
    Collections.GroupsByKeys(cs, NameKey, MakeUnique, UniqueKey);
    var g := Collections.Group(cs, NameKey, ks[j]);
    assert ks[j] in Collections.KeysOf(cs, NameKey);
    Collections.GroupNonEmpty(cs, NameKey, ks[j]);
    assert g[0] in cs;
  }

  const NotIterable := "component.elements is not iterable"

  /**
   * `extractUniqueComponents` as written: merging a second component of the
   * same name spreads `component.elements`, which extracted components never
   * carry, so the pass throws as soon as a name repeats.
   */
  function ExtractUniqueAsWritten(cs: seq<Extracted>): Result<seq<UniqueComponent>>
  {
    if |Collections.Dedup(Collections.KeysOf(cs, NameKey))| == |cs| then Ok(UniqueComponents(cs)) else Err(NotIterable)
  }

  /**
   * Two sections with buttons on one route are enough: the pass as written
   * throws, while the merged inventory holds fewer entries than components.
   */
  lemma UniqueAsWrittenFails(sd: SectionData)
    requires CountsOf(sd).buttons > 0
    ensures var cs := RoutesComponents([RouteData("/", Some([sd, sd]), None)]);
      ExtractUniqueAsWritten(cs).Err? && |UniqueComponents(cs)| < |cs|
  {
    var e := ExtractComponentsFromSection(sd);
    TwoSectionsComponents(sd);
    assert |e| > 0;
    RepeatedNameFails(e + e, 0, |e|);
  }

  /** A route with the same section twice lists that section's components twice. */
  lemma TwoSectionsComponents(sd: SectionData)
    ensures RoutesComponents([RouteData("/", Some([sd, sd]), None)]) == ExtractComponentsFromSection(sd) + ExtractComponentsFromSection(sd)
  {
    var e := ExtractComponentsFromSection(sd);
    var route := RouteData("/", Some([sd, sd]), None);
    assert [sd, sd][..1] == [sd] && [sd][..0] == [];
    assert SectionsComponents([sd]) == e;
    assert SectionsComponents([sd, sd]) == e + e;
    assert [route][..0] == [];
    assert RoutesComponents([route]) == RouteSectionsComponents(route);
  }

  /** Any name repeated, compared without case, makes the pass as written throw, and the inventory shorter than its input. */
  lemma RepeatedNameFails(cs: seq<Extracted>, i: nat, j: nat)
    requires i < j < |cs| && NameKey(cs[i]) == NameKey(cs[j])
    ensures ExtractUniqueAsWritten(cs).Err? && |UniqueComponents(cs)| < |cs|
  {
    var keys := Collections.KeysOf(cs, NameKey);
    assert keys[i] == keys[j];
    Collections.DedupShorter(keys, i, j);
    UniqueComponentsLength(cs);
  }

  /** The inventory holds one entry per name, compared without case. */
  lemma UniqueComponentsLength(cs: seq<Extracted>)
    ensures |UniqueComponents(cs)| == |Collections.Dedup(Collections.KeysOf(cs, NameKey))|
  {
    Collections.SortedGroupsLength(cs, NameKey, MakeUnique, Usage);
  }

  /** The state of `extractUniqueComponents`: the lower-cased names in insertion order, and the entries. */
  type UniqueEntries = (seq<string>, map<string, UniqueComponent>)

  /** The step `extractUniqueComponents` takes per component: a new name starts an entry, a known one counts one more use. */
  function MergeUnique(s: UniqueEntries, c: Extracted): UniqueEntries
  {
    var key := Text.LowerStr(c.name);
    var entry := if key !in s.1 then UniqueComponent(c.name, [], 1)
                 else s.1[key].(usageCount := s.1[key].usageCount + 1, elements := Collections.Dedup(s.1[key].elements));
    (Collections.Add(s.0, key), s.1[key := entry])
  }

  /** The state after merging `cs` in order, starting from no entries. */
  ghost function UniqueFold(cs: seq<Extracted>): UniqueEntries
  {
    if cs == [] then ([], map[]) else MergeUnique(UniqueFold(cs[..|cs| - 1]), cs[|cs| - 1])
  }

  lemma UniqueFoldStep(seen: seq<Extracted>, ys: seq<Extracted>, k: nat)
    requires k < |ys|
    ensures UniqueFold(seen + ys[..k + 1]) == MergeUnique(UniqueFold(seen + ys[..k]), ys[k])
  {
    Collections.SeenStep(seen, ys, k);
    var xs := seen + ys[..k + 1];
    assert xs[..|xs| - 1] == seen + ys[..k];
  }

  /** Merging the components one by one keeps one entry per name, built from that name's components. */
  lemma {:induction false} UniqueFoldTallied(cs: seq<Extracted>)
    ensures Collections.Tallied(UniqueFold(cs).0, UniqueFold(cs).1, cs, NameKey, MakeUnique)
    decreases |cs|
  {
    if cs != [] {
      var init, c := cs[..|cs| - 1], cs[|cs| - 1];
      UniqueFoldTallied(init);
      var s := UniqueFold(init);
      assert UniqueFold(cs) == MergeUnique(s, c);
      UniqueStep(s, init, c);
      Collections.LastSplit(cs);
    }
  }

  /** `extractUniqueComponents`, with the merge reading a missing element list as empty. */
  method ExtractUniqueComponents(routes: seq<RouteData>) returns (unique: seq<UniqueComponent>)
    ensures unique == UniqueComponents(RoutesComponents(routes))
  {
    ghost var seen: seq<Extracted> := [];
    var keys: seq<string> := [];
    var componentsMap: map<string, UniqueComponent> := map[];
    var i := 0;
    while i < |routes|
      invariant 0 <= i <= |routes|
      invariant seen == RoutesComponents(routes[..i])
      invariant (keys, componentsMap) == UniqueFold(seen)
    {
      ghost var next := seen + RouteSectionsComponents(routes[i]);
      RoutesStep(routes, i);
      if routes[i].sections.Some? {
        keys, componentsMap := TallySections(keys, componentsMap, seen, routes[i].sections.value);
      } else {
        assert next == seen;
      }
      seen := next;
      i := i + 1;
    }
    Collections.PrefixFull(routes, i);
    UniqueFoldTallied(seen);
    Collections.TalliedValues(keys, componentsMap, seen, NameKey, MakeUnique);
    var values := Collections.Values(keys, componentsMap);
    unique := Collections.SortDesc(values, Usage);
  }

  lemma RoutesStep(routes: seq<RouteData>, i: nat)
    requires i < |routes|
    ensures RoutesComponents(routes[..i + 1]) == RoutesComponents(routes[..i]) + RouteSectionsComponents(routes[i])
  {
    assert routes[..i + 1][..i] == routes[..i];
  }

  lemma SectionsStep(seen: seq<Extracted>, sections: seq<SectionData>, j: nat)
    requires j < |sections|
    ensures seen + SectionsComponents(sections[..j + 1]) == seen + SectionsComponents(sections[..j]) + ExtractComponentsFromSection(sections[j])
  {
    assert sections[..j + 1][..j] == sections[..j];
  }

  /** The sections of one route, in order, each section's components in order. */
  method TallySections(keys: seq<string>, componentsMap: map<string, UniqueComponent>,
                       ghost seen: seq<Extracted>, sections: seq<SectionData>)
    returns (keys': seq<string>, componentsMap': map<string, UniqueComponent>)
    requires (keys, componentsMap) == UniqueFold(seen)
    ensures (keys', componentsMap') == UniqueFold(seen + SectionsComponents(sections))
  {
    keys', componentsMap' := keys, componentsMap;
    ghost var before := seen;
    var j := 0;
    assert SectionsComponents(sections[..0]) == [];
    while j < |sections|
      invariant 0 <= j <= |sections|
      invariant before == seen + SectionsComponents(sections[..j])
      invariant (keys', componentsMap') == UniqueFold(before)
    {
      var components := ExtractComponentsFromSection(sections[j]);
      SectionsStep(seen, sections, j);
      keys', componentsMap' := TallyComponents(keys', componentsMap', before, components);
      before := before + components;
      j := j + 1;
    }
    Collections.PrefixFull(sections, j);
  }

  /** The components of one section, in order. */
  method TallyComponents(keys: seq<string>, componentsMap: map<string, UniqueComponent>,
                         ghost seen: seq<Extracted>, components: seq<Extracted>)
    returns (keys': seq<string>, componentsMap': map<string, UniqueComponent>)
    requires (keys, componentsMap) == UniqueFold(seen)
    ensures (keys', componentsMap') == UniqueFold(seen + components)
  {
    keys', componentsMap' := keys, componentsMap;
    var k := 0;
    assert seen + components[..0] == seen;
    while k < |components|
      invariant 0 <= k <= |components|
      invariant (keys', componentsMap') == UniqueFold(seen + components[..k])
    {
      UniqueFoldStep(seen, components, k);
      keys', componentsMap' := MergeComponent(keys', componentsMap', components[k]);
      k := k + 1;
    }
    Collections.PrefixFull(components, k);
  }

  /** One component merged into the entries. */
  method MergeComponent(keys: seq<string>, componentsMap: map<string, UniqueComponent>, component: Extracted)
    returns (keys': seq<string>, componentsMap': map<string, UniqueComponent>)
    ensures (keys', componentsMap') == MergeUnique((keys, componentsMap), component)
  {
    var key := Text.LowerStr(component.name);
    var entry;
    if key !in componentsMap {
      entry := UniqueComponent(component.name, [], 1);
    } else {
      var existing := componentsMap[key];
      entry := existing.(usageCount := existing.usageCount + 1, elements := Collections.Dedup(existing.elements));
    }
    componentsMap' := componentsMap[key := entry];
    keys' := Collections.Add(keys, key);
  }

  /** The proof of one merge step. */
  lemma UniqueStep(s: UniqueEntries, before: seq<Extracted>, c: Extracted)
    requires Collections.Tallied(s.0, s.1, before, NameKey, MakeUnique)
    ensures Collections.Tallied(MergeUnique(s, c).0, MergeUnique(s, c).1, before + [c], NameKey, MakeUnique)
  {
    var key := NameKey(c);
    var entry := MergedEntry(s, before, c);
    Collections.PushTallied(s.0, s.1, before, c, before + [c], NameKey, MakeUnique, entry);
    assert MergeUnique(s, c) == (Collections.Add(s.0, key), s.1[key := entry]);
  }

  /** The record a merge step stores is the one its key's grown group calls for. */
  lemma MergedEntry(s: UniqueEntries, before: seq<Extracted>, c: Extracted) returns (entry: UniqueComponent)
    requires Collections.Tallied(s.0, s.1, before, NameKey, MakeUnique)
    ensures entry == MergeUnique(s, c).1[NameKey(c)]
    ensures entry == MakeUnique(NameKey(c), Collections.Group(before, NameKey, NameKey(c)) + [c])
  {
    var key := NameKey(c);
    var g := Collections.Group(before, NameKey, key);
    entry := MergeUnique(s, c).1[key];
    if key !in s.1 {
      Collections.UnseenGroup(s.0, s.1, before, NameKey, MakeUnique, key);
      assert g + [c] == [c];
    } else {
      Collections.SeenRecord(s.0, s.1, before, NameKey, MakeUnique, key);
      assert (g + [c])[0] == g[0];
    }
  }
}
