/**
 * The helpers behind the detailed component specifications of the Markdown
 * report: variations without repeats, refactoring suggestions counted per
 * type, the elements every instance of a section shares, and the props
 * suggested for a section.
 */
module MarkdownHelpers {
  import opened Wrappers
  import Collections
  import MarkdownNames
  import opened MarkdownComponents
  import Text

  // ---------------------------------------------------------------------------
  // deduplicateVariations

  /** At most this many variations are kept. */
  const MaxVariations := 5

  /**
   * The variations whose `JSON.stringify` form (`encode`) has not been seen
   * before, in order.
   */
  function FirstOccurrences<V>(vs: seq<V>, encode: V -> string): seq<V>
  {
    if vs == [] then []
    else
      var kept := FirstOccurrences(vs[..|vs| - 1], encode);
      var v := vs[|vs| - 1];
      if encode(v) in Collections.KeysOf(kept, encode) then kept else kept + [v]
  }

  /** `unique.slice(0, 5)`. */
  function Capped<V>(vs: seq<V>): (r: seq<V>)
    ensures |r| <= MaxVariations
  {
    if |vs| <= MaxVariations then vs else vs[..MaxVariations]
  }

  /**
   * The kept variations have the encodings of the input, each once, in
   * order of first appearance...
   */
  lemma {:induction false} FirstOccurrencesKeys<V>(vs: seq<V>, encode: V -> string)
    ensures Collections.KeysOf(FirstOccurrences(vs, encode), encode) == Collections.Dedup(Collections.KeysOf(vs, encode))
    decreases |vs|
  {
    if vs != [] {
      var init, v := vs[..|vs| - 1], vs[|vs| - 1];
      FirstOccurrencesKeys(init, encode);
      Collections.KeysOfSnoc(init, v, encode);
      assert vs == init + [v];
      Collections.AddAllSnoc([], Collections.KeysOf(init, encode), encode(v));
      var kept := FirstOccurrences(init, encode);
      Collections.KeysOfSnoc(kept, v, encode);
    }
  }

  /** ...each kept variation is the first one with its encoding... */
  lemma {:induction false} FirstOccurrenceAt<V>(vs: seq<V>, encode: V -> string, j: nat)
    requires j < |FirstOccurrences(vs, encode)|
    ensures var r := FirstOccurrences(vs, encode);
      Collections.Group(vs, encode, encode(r[j])) != [] && r[j] == Collections.Group(vs, encode, encode(r[j]))[0]
    decreases |vs|
  {
    var init, v := vs[..|vs| - 1], vs[|vs| - 1];
    var kept := FirstOccurrences(init, encode);
    var r := FirstOccurrences(vs, encode);
    assert vs == init + [v];
    Collections.GroupSnoc(init, v, encode, encode(r[j]));
    if j < |kept| {
      FirstOccurrenceAt(init, encode, j);
      assert r[j] == kept[j];
    } else {
      FirstOccurrencesKeys(init, encode);
      assert encode(v) !in Collections.KeysOf(init, encode);
      assert Collections.Group(init, encode, encode(v)) == [];
    }
  }

  /** ...and they keep the input's order. */
  lemma {:induction false} FirstOccurrencesSubseq<V>(vs: seq<V>, encode: V -> string)
    ensures Collections.IsSubseq(FirstOccurrences(vs, encode), vs)
    decreases |vs|
  {
    if vs != [] {
      var init, v := vs[..|vs| - 1], vs[|vs| - 1];
      var kept := FirstOccurrences(init, encode);
      FirstOccurrencesSubseq(init, encode);
      if encode(v) in Collections.KeysOf(kept, encode) {
        assert Collections.IsSubseq(kept, init);
        assert Collections.IsSubseq(kept, vs);
      } else {
        assert (kept + [v])[..|kept|] == kept;
      }
    }
  }

  /**
   * The variations are at most five, with pairwise different encodings,
   * each the first of its encoding...
   */
  lemma DeduplicatedSpec<V>(vs: seq<V>, encode: V -> string)
    ensures var r := Capped(FirstOccurrences(vs, encode));
      && |r| <= MaxVariations
      && Collections.KeysDistinct(r, encode)
      && (forall j :: 0 <= j < |r| ==>
            Collections.Group(vs, encode, encode(r[j])) != [] && r[j] == Collections.Group(vs, encode, encode(r[j]))[0])
  {
    var kept := FirstOccurrences(vs, encode);
    var r := Capped(kept);
    var ks := Collections.KeysOf(kept, encode);
    FirstOccurrencesKeys(vs, encode);
    Collections.DedupDistinct(Collections.KeysOf(vs, encode));
    forall j | 0 <= j < |r|
      ensures r[j] == kept[j] && ks[j] == encode(r[j])
      ensures Collections.Group(vs, encode, encode(r[j])) != [] && r[j] == Collections.Group(vs, encode, encode(r[j]))[0]
    {
      FirstOccurrenceAt(vs, encode, j);
    }
  }

  /** ...and when at most five encodings occur, every variation's encoding is among them. */
  lemma DeduplicatedCover<V>(vs: seq<V>, encode: V -> string, v: V)
    requires v in vs && |Collections.Dedup(Collections.KeysOf(vs, encode))| <= MaxVariations
    ensures exists j :: 0 <= j < |Capped(FirstOccurrences(vs, encode))| && encode(Capped(FirstOccurrences(vs, encode))[j]) == encode(v)
  {
    var kept := FirstOccurrences(vs, encode);
    var ks := Collections.KeysOf(vs, encode);
    FirstOccurrencesKeys(vs, encode);
    assert Capped(kept) == kept;
    var i :| 0 <= i < |vs| && vs[i] == v;
    assert ks[i] == encode(v);
    assert encode(v) in Collections.KeysOf(kept, encode);
    var j :| 0 <= j < |kept| && Collections.KeysOf(kept, encode)[j] == encode(v);
  }

  /** `deduplicateVariations(variations)`, with `encode` standing for `JSON.stringify`. */
  method DeduplicateVariations<V>(variations: seq<V>, encode: V -> string) returns (r: seq<V>)
    ensures r == Capped(FirstOccurrences(variations, encode))
  {
    var seen: seq<string> := [];
    var unique: seq<V> := [];
    var i := 0;
    while i < |variations|
      invariant 0 <= i <= |variations|
      invariant unique == FirstOccurrences(variations[..i], encode)
      invariant seen == Collections.KeysOf(unique, encode)
    {
      var variation := variations[i];
      var key := encode(variation);
      assert variations[..i + 1][..i] == variations[..i];
      ghost var next := FirstOccurrences(variations[..i + 1], encode);
      if key !in seen {
        Collections.KeysOfSnoc(unique, variation, encode);
        seen := seen + [key];
        unique := unique + [variation];
      }
      assert unique == next;
      i := i + 1;
    }
    Collections.PrefixFull(variations, i);
    r := if |unique| <= MaxVariations then unique else unique[..MaxVariations];
  }

  // ---------------------------------------------------------------------------
  // aggregateRefactoringOpportunities

  datatype Suggestion = Suggestion(kind: string, description: string)

  /** A refactoring opportunity; a missing one is `None`. */
  datatype Opportunity = Opportunity(suggestions: Option<seq<Suggestion>>)

  datatype Aggregate = Aggregate(kind: string, description: string, count: int)

  /** The suggestions `opp && opp.suggestions` gives, none for a missing opportunity or list. */
  function SuggestionsOf(o: Option<Opportunity>): seq<Suggestion>
  {
    if o.Some? && o.value.suggestions.Some? then o.value.suggestions.value else []
  }

  /** Every suggestion of every opportunity, in order. */
  function AllSuggestions(opps: seq<Option<Opportunity>>): seq<Suggestion>
  {
    if opps == [] then [] else AllSuggestions(opps[..|opps| - 1]) + SuggestionsOf(opps[|opps| - 1])
  }

  lemma AllSuggestionsStep(opps: seq<Option<Opportunity>>, i: nat)
    requires i < |opps|
    ensures AllSuggestions(opps[..i + 1]) == AllSuggestions(opps[..i]) + SuggestionsOf(opps[i])
  {
    assert opps[..i + 1][..i] == opps[..i];
  }

  function SuggestionType(s: Suggestion): string
  {
    s.kind
  }

  function AggregateType(a: Aggregate): string
  {
    a.kind
  }

  function AggregateCount(a: Aggregate): int
  {
    a.count
  }

  /** The entry of a type: the first suggestion's description, and how many suggestions have the type. */
  function MakeAggregate(k: string, g: seq<Suggestion>): Aggregate
  {
    if g == [] then Aggregate(k, "", 0) else Aggregate(k, g[0].description, |g|)
  }

  /** `aggregateRefactoringOpportunities`: one entry per suggestion type, most frequent first. */
  function Aggregated(opps: seq<Option<Opportunity>>): seq<Aggregate>
  {
    var ss := AllSuggestions(opps);
    Collections.SortDesc(Collections.GroupsBy(Collections.Dedup(Collections.KeysOf(ss, SuggestionType)), ss, SuggestionType, MakeAggregate), AggregateCount)
  }

  /** The entries come most frequent first, one per suggestion type. */
  lemma AggregatedSorted(opps: seq<Option<Opportunity>>)
    ensures var r, ss := Aggregated(opps), AllSuggestions(opps);
      && Collections.SortedDesc(r, AggregateCount)
      && Collections.KeysDistinct(r, AggregateType)
      && |r| == |Collections.Dedup(Collections.KeysOf(ss, SuggestionType))|
  {
    var ss := AllSuggestions(opps);
    var ks := Collections.Dedup(Collections.KeysOf(ss, SuggestionType));
    var gs := Collections.GroupsBy(ks, ss, SuggestionType, MakeAggregate);
    Collections.GroupsByKeys(ss, SuggestionType, MakeAggregate, AggregateType);
    Collections.KeysDistinctPermutation(gs, Aggregated(opps), AggregateType);
  }

  /**
   * Each entry counts the suggestions of its type and carries the
   * description of the first of them.
   */
  lemma AggregatedEntry(opps: seq<Option<Opportunity>>, a: Aggregate)
    requires a in Aggregated(opps)
    ensures var ss := AllSuggestions(opps);
      var g := Collections.Group(ss, SuggestionType, a.kind);
      && a.count == multiset(Collections.KeysOf(ss, SuggestionType))[a.kind] == |g| > 0
      && a.description == g[0].description
  {
    var ss := AllSuggestions(opps);
    var ks := Collections.Dedup(Collections.KeysOf(ss, SuggestionType));
    var gs := Collections.GroupsBy(ks, ss, SuggestionType, MakeAggregate);
    assert a in multiset(gs);
    var j :| 0 <= j < |gs| && gs[j] == a;
    Collections.GroupsByKeys(ss, SuggestionType, MakeAggregate, AggregateType);
    assert ks[j] in ks;
    assert ks[j] in Collections.KeysOf(ss, SuggestionType);
    Collections.GroupNonEmpty(ss, SuggestionType, ks[j]);
  }

  /** Every suggestion's type has its entry. */
  lemma AggregatedCover(opps: seq<Option<Opportunity>>, s: Suggestion)
    requires s in AllSuggestions(opps)
    ensures exists a :: a in Aggregated(opps) && a.kind == s.kind
  {
    Collections.SortedGroupsCover(AllSuggestions(opps), SuggestionType, MakeAggregate, AggregateCount, AggregateType, s);
  }

  /** `aggregateRefactoringOpportunities(opportunities)`: the `Map` by type, then its values sorted by count. */
  method AggregateRefactoringOpportunities(opportunities: seq<Option<Opportunity>>) returns (r: seq<Aggregate>)
    ensures r == Aggregated(opportunities)
  {
    ghost var seen: seq<Suggestion> := [];
    var keys: seq<string> := [];
    var aggregated: map<string, Aggregate> := map[];
    var i := 0;
    while i < |opportunities|
      invariant 0 <= i <= |opportunities|
      invariant seen == AllSuggestions(opportunities[..i])
      invariant Collections.Tallied(keys, aggregated, seen, SuggestionType, MakeAggregate)
    {
      AllSuggestionsStep(opportunities, i);
      var opp := opportunities[i];
      ghost var next := seen + SuggestionsOf(opp);
      if opp.Some? && opp.value.suggestions.Some? {
        keys, aggregated := CountSuggestions(keys, aggregated, seen, opp.value.suggestions.value);
      } else {
        assert next == seen;
      }
      seen := next;
      i := i + 1;
    }
    Collections.PrefixFull(opportunities, i);
    Collections.TalliedValues(keys, aggregated, seen, SuggestionType, MakeAggregate);
    r := Collections.SortDesc(Collections.Values(keys, aggregated), AggregateCount);
  }

  /** The suggestions of one opportunity, in order. */
  method CountSuggestions(keys: seq<string>, aggregated: map<string, Aggregate>, ghost seen: seq<Suggestion>, suggestions: seq<Suggestion>)
    returns (keys': seq<string>, aggregated': map<string, Aggregate>)
    requires Collections.Tallied(keys, aggregated, seen, SuggestionType, MakeAggregate)
    ensures Collections.Tallied(keys', aggregated', seen + suggestions, SuggestionType, MakeAggregate)
  {
    keys', aggregated' := keys, aggregated;
    ghost var cur := seen;
    var k := 0;
    assert seen + suggestions[..0] == seen;
    while k < |suggestions|
      invariant 0 <= k <= |suggestions|
      invariant cur == seen + suggestions[..k]
      invariant Collections.Tallied(keys', aggregated', cur, SuggestionType, MakeAggregate)
    {
      Collections.SeenStep(seen, suggestions, k);
      keys', aggregated' := CountSuggestion(keys', aggregated', cur, suggestions[k]);
      cur := cur + [suggestions[k]];
      k := k + 1;
    }
    Collections.PrefixFull(suggestions, k);
  }

  /** One suggestion: a new type starts an entry with count 0, then the entry's count goes up by one. */
  method CountSuggestion(keys: seq<string>, aggregated: map<string, Aggregate>, ghost seen: seq<Suggestion>, suggestion: Suggestion)
    returns (keys': seq<string>, aggregated': map<string, Aggregate>)
    requires Collections.Tallied(keys, aggregated, seen, SuggestionType, MakeAggregate)
    ensures Collections.Tallied(keys', aggregated', seen + [suggestion], SuggestionType, MakeAggregate)
  {
    var key := suggestion.kind;
    ghost var g := Collections.Group(seen, SuggestionType, key);
    MakeAggregateSnoc(key, g, suggestion);
    var entry;
    if key in aggregated {
      Collections.SeenRecord(keys, aggregated, seen, SuggestionType, MakeAggregate, key);
      entry := aggregated[key];
    } else {
      Collections.UnseenGroup(keys, aggregated, seen, SuggestionType, MakeAggregate, key);
      entry := Aggregate(suggestion.kind, suggestion.description, 0);
    }
    entry := entry.(count := entry.count + 1);
    Collections.PushTallied(keys, aggregated, seen, suggestion, seen + [suggestion], SuggestionType, MakeAggregate, entry);
    aggregated' := aggregated[key := entry];
    keys' := Collections.Add(keys, key);
  }

  /** One more suggestion of a type: a first one starts the entry, a later one adds one to its count. */
  lemma MakeAggregateSnoc(k: string, g: seq<Suggestion>, s: Suggestion)
    ensures MakeAggregate(k, g + [s]) == if g == [] then Aggregate(k, s.description, 1)
                                         else MakeAggregate(k, g).(count := MakeAggregate(k, g).count + 1)
  {
    assert (g + [s])[0] == if g == [] then s else g[0];
  }

  // ---------------------------------------------------------------------------
  // findCommonElementsInSections

  /** An instance of a section type; only its section is read. */
  datatype Instance = Instance(section: SectionData)

  /** `instance.section.elements || []`. */
  function ElementsOf(i: Instance): seq<string>
  {
    if i.section.elements.Some? then i.section.elements.value else []
  }

  predicate InEvery(e: string, instances: seq<Instance>)
  {
    forall j :: 0 <= j < |instances| ==> e in ElementsOf(instances[j])
  }

  /** `element => elementSets.every(set => set.has(element))`. */
  function InEveryOf(instances: seq<Instance>): string -> bool
  {
    e => InEvery(e, instances)
  }

  function CommonInSections(instances: seq<Instance>): seq<string>
  {
    if instances == [] then [] else Collections.Filter(Collections.Dedup(ElementsOf(instances[0])), InEveryOf(instances))
  }

  /**
   * The shared elements are, without repeats and in the order the first
   * instance lists them, exactly those every instance lists; no instances
   * share none.
   */
  lemma CommonInSectionsSpec(instances: seq<Instance>)
    ensures var r := CommonInSections(instances);
      && Collections.Distinct(r)
      && (forall e :: e in r <==> instances != [] && InEvery(e, instances))
      && (instances != [] ==> Collections.IsSubseq(r, Collections.Dedup(ElementsOf(instances[0]))))
  {
    if instances != [] {
      var first := Collections.Dedup(ElementsOf(instances[0]));
      Collections.DedupDistinct(ElementsOf(instances[0]));
      Collections.FilterDistinct(first, InEveryOf(instances));
      forall e | InEvery(e, instances)
        ensures e in CommonInSections(instances)
      {
        assert e in ElementsOf(instances[0]);
      }
    }
  }

  /** `findCommonElementsInSections(instances)`. */
  method FindCommonElementsInSections(instances: seq<Instance>) returns (common: seq<string>)
    ensures common == CommonInSections(instances)
  {
    if |instances| == 0 {
      return [];
    }
    var firstSet := Collections.Dedup(ElementsOf(instances[0]));
    common := KeepInEvery(firstSet, instances);
  }

  /** The walk over the first instance's set: keep each element every instance lists. */
  method KeepInEvery(firstSet: seq<string>, instances: seq<Instance>) returns (common: seq<string>)
    ensures common == Collections.Filter(firstSet, InEveryOf(instances))
  {
    common := [];
    var k := 0;
    while k < |firstSet|
      invariant 0 <= k <= |firstSet|
      invariant common == Collections.Filter(firstSet[..k], InEveryOf(instances))
    {
      var element := firstSet[k];
      var inAll := InEveryInstance(element, instances);
      Collections.FilterStep(firstSet, k, InEveryOf(instances));
      ghost var next := Collections.Filter(firstSet[..k + 1], InEveryOf(instances));
      if inAll {
        common := common + [element];
      }
      assert common == next;
      k := k + 1;
    }
    Collections.PrefixFull(firstSet, k);
  }

  /** The `every` test for one element. */
  method InEveryInstance(e: string, instances: seq<Instance>) returns (inAll: bool)
    ensures inAll == InEvery(e, instances)
  {
    inAll := true;
    var j := 0;
    while j < |instances|
      invariant 0 <= j <= |instances|
      invariant inAll <==> forall m :: 0 <= m < j ==> e in ElementsOf(instances[m])
    {
      inAll := inAll && e in ElementsOf(instances[j]);
      j := j + 1;
    }
  }

  // ---------------------------------------------------------------------------
  // suggestPropsForSection

  /** `instances.reduce((acc, instance) => acc.concat(instance.section.elements || []), [])`. */
  function AllElements(instances: seq<Instance>): seq<string>
  {
    if instances == [] then [] else AllElements(instances[..|instances| - 1]) + ElementsOf(instances[|instances| - 1])
  }

  /** `count > instances.length * 0.5`, for the element's count among all elements. */
  predicate Majority(e: string, all: seq<string>, n: nat)
  {
    2 * multiset(all)[e] > n
  }

  function MajorityOf(all: seq<string>, n: nat): string -> bool
  {
    e => Majority(e, all, n)
  }

  /** The props `elementToProp` gives for the elements, in order, skipping those it gives none for. */
  function PropsFor(es: seq<string>): seq<MarkdownNames.PropInfo>
  {
    if es == [] then []
    else
      var p := MarkdownNames.ElementToProp(es[|es| - 1]);
      PropsFor(es[..|es| - 1]) + (if p.Some? then [p.value] else [])
  }

  /** `suggestPropsForSection(instances)`. */
  function SuggestedProps(instances: seq<Instance>): seq<MarkdownNames.PropInfo>
  {
    var all := AllElements(instances);
    PropsFor(Collections.Filter(Collections.Dedup(all), MajorityOf(all, |instances|)))
  }

  /** A prop is among the props for a list exactly when some element of the list gives it. */
  lemma {:induction false} PropsForMembers(es: seq<string>, p: MarkdownNames.PropInfo)
    ensures p in PropsFor(es) <==> exists e :: e in es && MarkdownNames.ElementToProp(e) == Some(p)
    decreases |es|
  {
    if es != [] {
      var init, e := es[..|es| - 1], es[|es| - 1];
      PropsForMembers(init, p);
      assert es == init + [e];
      if p in PropsFor(init) {
        var x :| x in init && MarkdownNames.ElementToProp(x) == Some(p);
        assert x in es;
      }
    }
  }

  /**
   * A prop is suggested exactly when some element that occurs more often
   * than in half of the instances gives it.
   */
  lemma SuggestedPropsSpec(instances: seq<Instance>, p: MarkdownNames.PropInfo)
    ensures var all := AllElements(instances);
      p in SuggestedProps(instances) <==>
        exists e :: e in all && 2 * multiset(all)[e] > |instances| && MarkdownNames.ElementToProp(e) == Some(p)
  {
    var all := AllElements(instances);
    var kept := Collections.Filter(Collections.Dedup(all), MajorityOf(all, |instances|));
    PropsForMembers(kept, p);
  }

  /** How many of the instances list the element. */
  function ListedBy(instances: seq<Instance>, e: string): nat
  {
    if instances == [] then 0
    else ListedBy(instances[..|instances| - 1], e) + (if e in ElementsOf(instances[|instances| - 1]) then 1 else 0)
  }

  /**
   * The count is of occurrences: it is the number of instances listing the
   * element only when no instance lists an element twice.
   */
  lemma {:induction false} OccurrencesCountInstances(instances: seq<Instance>, e: string)
    requires forall j :: 0 <= j < |instances| ==> Collections.Distinct(ElementsOf(instances[j]))
    ensures multiset(AllElements(instances))[e] == ListedBy(instances, e)
    decreases |instances|
  {
    if instances != [] {
      var init, last := instances[..|instances| - 1], instances[|instances| - 1];
      assert forall j :: 0 <= j < |init| ==> init[j] == instances[j];
      OccurrencesCountInstances(init, e);
      Collections.DistinctCounts(ElementsOf(last));
      assert multiset(AllElements(instances)) == multiset(AllElements(init)) + multiset(ElementsOf(last));
      assert e in ElementsOf(last) <==> multiset(ElementsOf(last))[e] > 0;
    }
  }

  /** A section listing "title" twice, and two sections without elements. */
  const TwiceTitled := [Instance(SectionData(None, None, Some(["title", "title"]))),
                        Instance(SectionData(None, None, None)), Instance(SectionData(None, None, None))]

  /** The three sections' elements, concatenated. */
  lemma TwiceTitledElements()
    ensures AllElements(TwiceTitled) == ["title", "title"]
    ensures ListedBy(TwiceTitled, "title") == 1
  {
    var t := TwiceTitled;
    assert t[..|t| - 1] == t[..2];
    assert t[..2][..1] == t[..1];
    assert t[..1][..0] == [];
    assert AllElements(t[..1]) == ["title", "title"];
    assert ListedBy(t[..1], "title") == 1;
    assert ListedBy(t[..2], "title") == 1;
  }

  /** "title" is its own lower case, and so contains "title". */
  lemma TitleIsLower()
    ensures Text.LowerStr("title") == "title"
    ensures Text.Contains(Text.LowerStr("title"), "title")
  {
    var title := "title";
    assert Text.LowerStr(title)[0] == 't' && Text.LowerStr(title)[1] == 'i' && Text.LowerStr(title)[2] == 't';
    assert Text.LowerStr(title)[3] == 'l' && Text.LowerStr(title)[4] == 'e';
    assert Text.LowerStr(title) == title;
    assert Text.StartsWith(title, title);
  }

  /** One instance of three listing an element twice is enough for its prop. */
  lemma OneInstanceOfThree()
    ensures ListedBy(TwiceTitled, "title") == 1
    ensures SuggestedProps(TwiceTitled) != []
  {
    TwiceTitledElements();
    var all := AllElements(TwiceTitled);
    assert multiset(all)["title"] == 2;
    var kept := Collections.Filter(Collections.Dedup(all), MajorityOf(all, 3));
    assert Majority("title", all, 3);
    assert "title" in kept;
    TitleIsLower();
    MarkdownNames.ElementToPropSpec("title");
    PropsForMembers(kept, MarkdownNames.ElementToProp("title").value);
  }

  /** `suggestPropsForSection(instances)`: the elements concatenated, counted in a `Map`, then each count checked. */
  method SuggestPropsForSection(instances: seq<Instance>) returns (props: seq<MarkdownNames.PropInfo>)
    ensures props == SuggestedProps(instances)
  {
    var allElements := AllElements(instances);
    var keys, elementCounts := CountElements(allElements);
    props := PropsOfCounts(keys, elementCounts, allElements, |instances|);
  }

  /** The last `forEach`: a prop for each element counted more than `n / 2` times, when it gives one. */
  method PropsOfCounts(keys: seq<string>, counts: map<string, nat>, ghost all: seq<string>, n: nat)
    returns (props: seq<MarkdownNames.PropInfo>)
    requires forall e :: e in keys ==> e in counts && counts[e] == multiset(all)[e]
    ensures props == PropsFor(Collections.Filter(keys, MajorityOf(all, n)))
  {
    props := [];
    var j := 0;
    while j < |keys|
      invariant 0 <= j <= |keys|
      invariant props == PropsFor(Collections.Filter(keys[..j], MajorityOf(all, n)))
    {
      var element := keys[j];
      var count := counts[element];
      assert element in keys;
      assert MajorityOf(all, n)(element) <==> 2 * count > n;
      ghost var kept := Collections.Filter(keys[..j], MajorityOf(all, n));
      Collections.FilterStep(keys, j, MajorityOf(all, n));
      PropsForSnoc(kept, element);
      ghost var next := PropsFor(Collections.Filter(keys[..j + 1], MajorityOf(all, n)));
      if 2 * count > n {
        assert next == PropsFor(kept + [element]);
        var propInfo := MarkdownNames.ElementToProp(element);
        if propInfo.Some? {
          props := props + [propInfo.value];
        }
      } else {
        assert Collections.Filter(keys[..j + 1], MajorityOf(all, n)) == kept;
        assert next == PropsFor(kept);
      }
      assert props == next;
      j := j + 1;
    }
    Collections.PrefixFull(keys, j);
  }

  lemma PropsForSnoc(es: seq<string>, e: string)
    ensures PropsFor(es + [e]) == PropsFor(es) + (var p := MarkdownNames.ElementToProp(e); if p.Some? then [p.value] else [])
  {
    assert (es + [e])[..|es|] == es;
  }

  function Id(e: string): string
  {
    e
  }

  /** The record the counting pass keeps per element: how often it has been seen. */
  function Size(e: string, g: seq<string>): nat
  {
    |g|
  }

  /** The counting pass: each element's count in a `Map`, elements in order of first appearance. */
  method CountElements(all: seq<string>) returns (keys: seq<string>, counts: map<string, nat>)
    ensures keys == Collections.Dedup(all)
    ensures forall e :: e in keys ==> e in counts && counts[e] == multiset(all)[e]
  {
    keys := [];
    counts := map[];
    var i := 0;
    while i < |all|
      invariant 0 <= i <= |all|
      invariant Collections.Tallied(keys, counts, all[..i], Id, Size)
    {
      Collections.PrefixStep(all, i);
      keys, counts := CountElement(keys, counts, all[..i], all[i]);
      i := i + 1;
    }
    Collections.PrefixFull(all, i);
    CountsOfTally(all, keys, counts);
  }

  /** One element counted: its count goes up by one, from zero when it is new. */
  method CountElement(keys: seq<string>, counts: map<string, nat>, ghost seen: seq<string>, element: string)
    returns (keys': seq<string>, counts': map<string, nat>)
    requires Collections.Tallied(keys, counts, seen, Id, Size)
    ensures Collections.Tallied(keys', counts', seen + [element], Id, Size)
  {
    var count := 0;
    if element in counts {
      Collections.SeenRecord(keys, counts, seen, Id, Size, element);
      count := counts[element];
    } else {
      Collections.UnseenGroup(keys, counts, seen, Id, Size, element);
    }
    assert count + 1 == Size(Id(element), Collections.Group(seen, Id, Id(element)) + [element]);
    Collections.PushTallied(keys, counts, seen, element, seen + [element], Id, Size, count + 1);
    counts' := counts[element := count + 1];
    keys' := Collections.Add(keys, element);
  }

  /** At the end of the counting pass every element's count is its number of occurrences. */
  lemma CountsOfTally(all: seq<string>, keys: seq<string>, counts: map<string, nat>)
    requires Collections.Tallied(keys, counts, all, Id, Size)
    ensures keys == Collections.Dedup(all)
    ensures forall e :: e in keys ==> e in counts && counts[e] == multiset(all)[e]
  {
    assert Collections.KeysOf(all, Id) == all;
    forall e | e in keys
      ensures e in counts && counts[e] == multiset(all)[e]
    {
      Collections.TallyAt(all, Id, Size, e);
    }
  }
}
