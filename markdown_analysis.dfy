/**
 * The per-type views the Markdown report takes of the components the
 * processed routes list: one copy per type with its instance total, and
 * the detailed analysis with the best reusability score and the priority.
 */
module MarkdownAnalysis {
  import opened Wrappers
  import Collections
  import MarkdownNames
  import opened MarkdownComponents

  // ---------------------------------------------------------------------------
  // The components the processed routes list

  /** A component as one route lists it, with the path of that route. */
  datatype Listing = Listing(route: string, component: RouteComponent)

  /** The listings of one route, in the order of its `components`. */
  function RouteListings(r: RouteData): (ls: seq<Listing>)
    ensures |ls| == (if r.components.Some? then |r.components.value| else 0)
    ensures r.components.Some? ==> forall j :: 0 <= j < |ls| ==> ls[j] == Listing(r.route, r.components.value[j])
  {
    if r.components.Some? then
      seq(|r.components.value|, j requires 0 <= j < |r.components.value| => Listing(r.route, r.components.value[j]))
    else []
  }

  /** Every listing of every route, routes in order. */
  function Listings(routes: seq<RouteData>): seq<Listing>
  {
    if routes == [] then [] else Listings(routes[..|routes| - 1]) + RouteListings(routes[|routes| - 1])
  }

  lemma ListingsStep(routes: seq<RouteData>, i: nat)
    requires i < |routes|
    ensures Listings(routes[..i + 1]) == Listings(routes[..i]) + RouteListings(routes[i])
  {
    assert routes[..i + 1][..i] == routes[..i];
  }

  /** Both passes key a listing by its component's type. */
  function TypeOfListing(l: Listing): string
  {
    l.component.kind
  }

  function ComponentType(c: RouteComponent): string
  {
    c.kind
  }

  /** How many instances a listing stands for: `component.instances || 1`. */
  function Count(l: Listing): int
  {
    Or(l.component.instances, 1)
  }

  /** The instances a run of listings stands for, summed. */
  function Total(ls: seq<Listing>): int
  {
    if ls == [] then 0 else Total(ls[..|ls| - 1]) + Count(ls[|ls| - 1])
  }

  /** The sum taken from the front: the first listing, then the rest. */
  lemma {:induction false} TotalFront(ls: seq<Listing>)
    requires ls != []
    ensures Total(ls) == Count(ls[0]) + Total(ls[1..])
    decreases |ls|
  {
    if |ls| == 1 {
      assert ls[1..] == [] && ls[..0] == [];
    } else {
      var init := ls[..|ls| - 1];
      TotalFront(init);
      assert init[0] == ls[0];
      assert ls[1..][..|ls| - 2] == init[1..];
    }
  }

  // ---------------------------------------------------------------------------
  // extractAllComponents

  /**
   * The `instances` of a type's copy: the first listing's own value while
   * it is alone; each later listing adds its `instances || 1` to the copy's
   * `instances || 0`.
   */
  function MergedInstances(g: seq<Listing>): Option<int>
    requires g != []
  {
    if |g| == 1 then g[0].component.instances
    else Some(Or(MergedInstances(g[..|g| - 1]), 0) + Count(g[|g| - 1]))
  }

  /** The copy kept for a type: the first listing's component, with the merged instance count. */
  function AllRecord(k: string, g: seq<Listing>): RouteComponent
  {
    if g == [] then RouteComponent(k, None, None, None) else g[0].component.(instances := MergedInstances(g))
  }

  /** `extractAllComponents`: one copy per component type, types in order of first appearance. */
  function AllComponents(routes: seq<RouteData>): seq<RouteComponent>
  {
    var ls := Listings(routes);
    Collections.GroupsBy(Collections.Dedup(Collections.KeysOf(ls, TypeOfListing)), ls, TypeOfListing, AllRecord)
  }

  /**
   * A type listed more than once adds up every later listing's
   * `instances || 1`, but its first listing only as `instances || 0`.
   */
  lemma {:induction false} MergedInstancesTotal(g: seq<Listing>)
    requires |g| >= 2
    ensures MergedInstances(g) == Some(Or(g[0].component.instances, 0) + Total(g[1..]))
    decreases |g|
  {
    var init := g[..|g| - 1];
    assert init[0] == g[0];
    if |g| == 2 {
      assert g[1..] == [g[1]] && [g[1]][..0] == [];
    } else {
      MergedInstancesTotal(init);
      assert g[1..][..|g| - 2] == init[1..];
    }
  }

  /** What the copy of a type is made of: its group of listings. */
  predicate CopyOf(c: RouteComponent, g: seq<Listing>)
  {
    && g != []
    && c.(instances := None) == g[0].component.(instances := None)
    && (|g| == 1 ==> c.instances == g[0].component.instances)
    && (|g| >= 2 ==> c.instances == Some(Or(g[0].component.instances, 0) + Total(g[1..])))
  }

  /**
   * One copy per type, the types pairwise different and in order of first
   * appearance; each copy is the first listing of its type, with the
   * instance total of the type's listings when there are several.
   */
  lemma AllComponentsSpec(routes: seq<RouteData>)
    ensures var ls, r := Listings(routes), AllComponents(routes);
      var ks := Collections.Dedup(Collections.KeysOf(ls, TypeOfListing));
      && |r| == |ks|
      && Collections.KeysDistinct(r, ComponentType)
      && forall j :: 0 <= j < |r| ==> r[j].kind == ks[j] && CopyOf(r[j], Collections.Group(ls, TypeOfListing, ks[j]))
  {
    var ls := Listings(routes);
    var ks := Collections.Dedup(Collections.KeysOf(ls, TypeOfListing));
    var r := AllComponents(routes);
    Collections.GroupsByKeys(ls, TypeOfListing, AllRecord, ComponentType);
    forall j | 0 <= j < |r|
      ensures CopyOf(r[j], Collections.Group(ls, TypeOfListing, ks[j]))
    {
      AllComponentAt(ls, ks, j);
    }
  }

  /** The `j`-th copy is the copy of the `j`-th type's group. */
  lemma AllComponentAt(ls: seq<Listing>, ks: seq<string>, j: nat)
    requires ks == Collections.Dedup(Collections.KeysOf(ls, TypeOfListing)) && j < |ks|
    ensures j < |Collections.GroupsBy(ks, ls, TypeOfListing, AllRecord)|
    ensures CopyOf(Collections.GroupsBy(ks, ls, TypeOfListing, AllRecord)[j], Collections.Group(ls, TypeOfListing, ks[j]))
  {
    assert forall k :: k in ks ==> k in Collections.KeysOf(ls, TypeOfListing);
    Collections.GroupsByAt(ks, ls, TypeOfListing, AllRecord, j);
    Collections.GroupNonEmpty(ls, TypeOfListing, ks[j]);
    AllRecordCopy(ks[j], Collections.Group(ls, TypeOfListing, ks[j]));
  }

  lemma AllRecordCopy(k: string, g: seq<Listing>)
    requires g != []
    ensures CopyOf(AllRecord(k, g), g)
  {
    if |g| >= 2 {
      MergedInstancesTotal(g);
    }
  }

  /** `extractAllComponents(processedRoutes)`: the `forEach` over routes and their components, filling a `Map` by type. */
  method ExtractAllComponents(routes: seq<RouteData>) returns (all: seq<RouteComponent>)
    ensures all == AllComponents(routes)
  {
    ghost var seen: seq<Listing> := [];
    var keys: seq<string> := [];
    var componentMap: map<string, RouteComponent> := map[];
    var i := 0;
    while i < |routes|
      invariant 0 <= i <= |routes|
      invariant seen == Listings(routes[..i])
      invariant Collections.Tallied(keys, componentMap, seen, TypeOfListing, AllRecord)
    {
      ListingsStep(routes, i);
      keys, componentMap := CopyRoute(keys, componentMap, seen, routes[i]);
      seen := seen + RouteListings(routes[i]);
      i := i + 1;
    }
    Collections.PrefixFull(routes, i);
    Collections.TalliedValues(keys, componentMap, seen, TypeOfListing, AllRecord);
    all := Collections.Values(keys, componentMap);
  }

  /** The components of one route, in order. */
  method CopyRoute(keys: seq<string>, componentMap: map<string, RouteComponent>, ghost seen: seq<Listing>, route: RouteData)
    returns (keys': seq<string>, componentMap': map<string, RouteComponent>)
    requires Collections.Tallied(keys, componentMap, seen, TypeOfListing, AllRecord)
    ensures Collections.Tallied(keys', componentMap', seen + RouteListings(route), TypeOfListing, AllRecord)
  {
    keys', componentMap' := keys, componentMap;
    if route.components.None? {
      assert seen + RouteListings(route) == seen;
      return;
    }
    var components := route.components.value;
    ghost var ls := RouteListings(route);
    ghost var cur := seen;
    var k := 0;
    assert seen + ls[..0] == seen;
    while k < |components|
      invariant 0 <= k <= |components|
      invariant cur == seen + ls[..k]
      invariant Collections.Tallied(keys', componentMap', cur, TypeOfListing, AllRecord)
    {
      var l := Listing(route.route, components[k]);
      assert l == ls[k];
      Collections.SeenStep(seen, ls, k);
      keys', componentMap' := CopyComponent(keys', componentMap', cur, l);
      cur := cur + [l];
      k := k + 1;
    }
    Collections.PrefixFull(ls, k);
  }

  /** One component: a new type stores a copy of it, a known type adds its instances to the copy. */
  method CopyComponent(keys: seq<string>, componentMap: map<string, RouteComponent>, ghost seen: seq<Listing>, l: Listing)
    returns (keys': seq<string>, componentMap': map<string, RouteComponent>)
    requires Collections.Tallied(keys, componentMap, seen, TypeOfListing, AllRecord)
    ensures Collections.Tallied(keys', componentMap', seen + [l], TypeOfListing, AllRecord)
  {
    var key := l.component.kind;
    ghost var g := Collections.Group(seen, TypeOfListing, key);
    AllRecordSnoc(key, g, l);
    var entry;
    if key in componentMap {
      Collections.SeenRecord(keys, componentMap, seen, TypeOfListing, AllRecord, key);
      var existing := componentMap[key];
      entry := existing.(instances := Some(Or(existing.instances, 0) + Or(l.component.instances, 1)));
    } else {
      Collections.UnseenGroup(keys, componentMap, seen, TypeOfListing, AllRecord, key);
      entry := l.component;
    }
    assert entry == AllRecord(key, g + [l]);
    Collections.PushTallied(keys, componentMap, seen, l, seen + [l], TypeOfListing, AllRecord, entry);
    componentMap' := componentMap[key := entry];
    keys' := Collections.Add(keys, key);
  }

  /** One more listing of a type: a first one is copied as it is, a later one adds to the copy's instances. */
  lemma AllRecordSnoc(k: string, g: seq<Listing>, l: Listing)
    ensures AllRecord(k, g + [l])
      == if g == [] then l.component else AllRecord(k, g).(instances := Some(Or(AllRecord(k, g).instances, 0) + Count(l)))
  {
    var h := g + [l];
    assert h[..|h| - 1] == g && h[0] == (if g == [] then l else g[0]);
  }

  // ---------------------------------------------------------------------------
  // performDetailedComponentAnalysis

  /** One entry of an analysis' `instances`: the route that lists the type, and how many instances it has there. */
  datatype Use = Use(route: string, count: int)

  /**
   * The analysis of one component type. The variations, layout patterns,
   * design tokens and refactoring opportunities it also collects are not
   * part of this model.
   */
  datatype Analysis = Analysis(reusabilityScore: int, consistency: int, priority: MarkdownNames.Level,
                               props: seq<string>, instances: seq<Use>)

  /** The analysis a type starts from. */
  const Fresh := Analysis(0, 0, MarkdownNames.Medium, [], [])

  /** `reusabilityScore || 0` of a listing's reusability analysis, 0 without one. */
  function ScoreOf(l: Listing): int
  {
    if l.component.reusabilityAnalysis.Some? then Or(l.component.reusabilityAnalysis.value.reusabilityScore, 0) else 0
  }

  /** `consistency || 0` of a listing's reusability analysis, 0 without one. */
  function ConsistencyOf(l: Listing): int
  {
    if l.component.reusabilityAnalysis.Some? then Or(l.component.reusabilityAnalysis.value.consistency, 0) else 0
  }

  function PropsOf(l: Listing): seq<string>
  {
    if l.component.props.Some? then l.component.props.value else []
  }

  /** The body of the first pass: one listing folded into its type's analysis. */
  function Gather(a: Analysis, l: Listing): Analysis
  {
    var c := l.component;
    var scored := if c.reusabilityAnalysis.Some? then
                    a.(reusabilityScore := Max(a.reusabilityScore, Or(c.reusabilityAnalysis.value.reusabilityScore, 0)),
                       consistency := Max(a.consistency, Or(c.reusabilityAnalysis.value.consistency, 0)))
                  else a;
    var propped := if c.props.Some? then scored.(props := Collections.AddAll(scored.props, c.props.value)) else scored;
    propped.(instances := propped.instances + [Use(l.route, Or(c.instances, 1))])
  }

  /** The analysis of a type after the first pass over its listings. */
  function Gathered(k: string, g: seq<Listing>): Analysis
  {
    if g == [] then Fresh else Gather(Gathered(k, g[..|g| - 1]), g[|g| - 1])
  }

  /** `analysis.instances.reduce((sum, inst) => sum + inst.count, 0)`. */
  function TotalUsage(us: seq<Use>): int
  {
    if us == [] then 0 else TotalUsage(us[..|us| - 1]) + us[|us| - 1].count
  }

  /** The second pass on one analysis: its priority from its total usage and best score. */
  function Prioritized(a: Analysis): Analysis
  {
    a.(priority := MarkdownNames.Priority(TotalUsage(a.instances), a.reusabilityScore))
  }

  /**
   * `performDetailedComponentAnalysis`: the analysis of every type some
   * route lists, each built from that type's listings and then prioritized.
   */
  ghost function DetailedAnalysis(routes: seq<RouteData>): map<string, Analysis>
  {
    var gathered := Collections.Tally(Listings(routes), TypeOfListing, Gathered);
    map k | k in gathered :: Prioritized(gathered[k])
  }

  /**
   * The reusability score of a type is the best `reusabilityScore || 0`
   * among its listings, or 0 when none beats 0...
   */
  lemma {:induction false} GatheredScore(k: string, g: seq<Listing>)
    ensures var a := Gathered(k, g);
      && a.reusabilityScore >= 0
      && (forall j :: 0 <= j < |g| ==> a.reusabilityScore >= ScoreOf(g[j]))
      && (a.reusabilityScore == 0 || exists j :: 0 <= j < |g| && a.reusabilityScore == ScoreOf(g[j]))
    decreases |g|
  {
    if g != [] {
      var init, l := g[..|g| - 1], g[|g| - 1];
      GatheredScore(k, init);
      assert forall j :: 0 <= j < |init| ==> init[j] == g[j];
      assert Gathered(k, g).reusabilityScore == Max(Gathered(k, init).reusabilityScore, ScoreOf(l));
    }
  }

  /** ...and its consistency the best `consistency || 0`. */
  lemma {:induction false} GatheredConsistency(k: string, g: seq<Listing>)
    ensures var a := Gathered(k, g);
      && a.consistency >= 0
      && (forall j :: 0 <= j < |g| ==> a.consistency >= ConsistencyOf(g[j]))
      && (a.consistency == 0 || exists j :: 0 <= j < |g| && a.consistency == ConsistencyOf(g[j]))
    decreases |g|
  {
    if g != [] {
      var init, l := g[..|g| - 1], g[|g| - 1];
      GatheredConsistency(k, init);
      assert forall j :: 0 <= j < |init| ==> init[j] == g[j];
      assert Gathered(k, g).consistency == Max(Gathered(k, init).consistency, ConsistencyOf(l));
    }
  }

  /** A type's analysis lists one use per listing, in order, each with the listing's route and `instances || 1`... */
  lemma {:induction false} GatheredUses(k: string, g: seq<Listing>)
    ensures var us := Gathered(k, g).instances;
      && |us| == |g|
      && forall j :: 0 <= j < |g| ==> us[j] == Use(g[j].route, Count(g[j]))
    decreases |g|
  {
    if g != [] {
      var init, l := g[..|g| - 1], g[|g| - 1];
      GatheredUses(k, init);
      GatherInstances(Gathered(k, init), l);
      assert forall j :: 0 <= j < |init| ==> init[j] == g[j];
    }
  }

  /** ...so its usage total is the number of instances its listings stand for. */
  lemma {:induction false} GatheredUsage(k: string, g: seq<Listing>)
    ensures TotalUsage(Gathered(k, g).instances) == Total(g)
    decreases |g|
  {
    if g != [] {
      var init, l := g[..|g| - 1], g[|g| - 1];
      GatheredUsage(k, init);
      var u0, us := Gathered(k, init).instances, Gathered(k, g).instances;
      GatherInstances(Gathered(k, init), l);
      assert us[..|us| - 1] == u0;
    }
  }

  /** A step of the first pass adds one use, for its listing. */
  lemma GatherInstances(a: Analysis, l: Listing)
    ensures Gather(a, l).instances == a.instances + [Use(l.route, Count(l))]
  {
  }

  /** A type's props are, without repeats, the props any of its listings names. */
  lemma {:induction false} GatheredProps(k: string, g: seq<Listing>)
    ensures var a := Gathered(k, g);
      && Collections.Distinct(a.props)
      && forall p :: p in a.props <==> exists j :: 0 <= j < |g| && p in PropsOf(g[j])
    decreases |g|
  {
    if g != [] {
      var init, l := g[..|g| - 1], g[|g| - 1];
      GatheredProps(k, init);
      var a0 := Gathered(k, init);
      Collections.AddAllDistinct(a0.props, PropsOf(l));
      assert Gathered(k, g).props == Collections.AddAll(a0.props, PropsOf(l));
      assert forall j :: 0 <= j < |init| ==> init[j] == g[j];
    }
  }

  /** The first pass leaves every priority at its initial 'Medium'. */
  lemma {:induction false} GatheredMedium(k: string, g: seq<Listing>)
    ensures Gathered(k, g).priority == MarkdownNames.Medium
    decreases |g|
  {
    if g != [] {
      GatheredMedium(k, g[..|g| - 1]);
    }
  }

  /**
   * The analysis has an entry for exactly the types some route lists, and
   * each entry's priority is the priority rule applied to the type's total
   * instance count and its best reusability score.
   */
  lemma DetailedAnalysisSpec(routes: seq<RouteData>, k: string)
    ensures var ls, d := Listings(routes), DetailedAnalysis(routes);
      && (k in d <==> exists l :: l in ls && l.component.kind == k)
      && (k in d ==>
           var g := Collections.Group(ls, TypeOfListing, k);
           && d[k].priority == MarkdownNames.Priority(Total(g), d[k].reusabilityScore)
           && d[k].reusabilityScore == Gathered(k, g).reusabilityScore
           && |d[k].instances| == |g| > 0)
  {
    var ls := Listings(routes);
    var g := Collections.Group(ls, TypeOfListing, k);
    Collections.TallyAt(ls, TypeOfListing, Gathered, k);
    if k in Collections.KeysOf(ls, TypeOfListing) {
      var i :| 0 <= i < |ls| && Collections.KeysOf(ls, TypeOfListing)[i] == k;
      assert ls[i] in ls && ls[i].component.kind == k;
      Collections.GroupNonEmpty(ls, TypeOfListing, k);
      GatheredUses(k, g);
      GatheredUsage(k, g);
    } else {
      forall l | l in ls
        ensures l.component.kind != k
      {
        var i :| 0 <= i < |ls| && ls[i] == l;
        assert Collections.KeysOf(ls, TypeOfListing)[i] == TypeOfListing(l);
      }
    }
  }

  /**
   * The two views count a type differently when its first listing carries
   * no `instances`: the analysis counts that listing once, the copy
   * `extractAllComponents` keeps counts it not at all.
   */
  lemma UnnumberedFirstListing(k: string, g: seq<Listing>)
    requires |g| >= 2 && g[0].component.instances.None?
    ensures AllRecord(k, g).instances == Some(Total(g) - 1)
    ensures TotalUsage(Gathered(k, g).instances) == Total(g)
  {
    MergedInstancesTotal(g);
    TotalFront(g);
    GatheredUsage(k, g);
  }

  /** `performDetailedComponentAnalysis(processedRoutes)`: the pass filling the `Map` by type, then the priority pass. */
  method PerformDetailedComponentAnalysis(routes: seq<RouteData>)
    returns (keys: seq<string>, analysis: map<string, Analysis>)
    ensures keys == Collections.Dedup(Collections.KeysOf(Listings(routes), TypeOfListing))
    ensures analysis == DetailedAnalysis(routes)
  {
    var gathered;
    keys, gathered := GatherAll(routes);
    GatheredKeys(keys, gathered, Listings(routes));
    analysis := Prioritize(keys, gathered);
  }

  /** The first pass, over every route. */
  method GatherAll(routes: seq<RouteData>) returns (keys: seq<string>, gathered: map<string, Analysis>)
    ensures Collections.Tallied(keys, gathered, Listings(routes), TypeOfListing, Gathered)
  {
    ghost var seen: seq<Listing> := [];
    keys := [];
    gathered := map[];
    var i := 0;
    while i < |routes|
      invariant 0 <= i <= |routes|
      invariant seen == Listings(routes[..i])
      invariant Collections.Tallied(keys, gathered, seen, TypeOfListing, Gathered)
    {
      ListingsStep(routes, i);
      keys, gathered := AnalyzeRoute(keys, gathered, seen, routes[i]);
      seen := seen + RouteListings(routes[i]);
      i := i + 1;
    }
    Collections.PrefixFull(routes, i);
  }

  /** After the first pass the map's keys are the listed types, each without repeats. */
  lemma GatheredKeys(keys: seq<string>, m: map<string, Analysis>, ls: seq<Listing>)
    requires Collections.Tallied(keys, m, ls, TypeOfListing, Gathered)
    ensures Collections.Distinct(keys) && forall k :: k in m <==> k in keys
  {
    Collections.DedupDistinct(Collections.KeysOf(ls, TypeOfListing));
    forall k
      ensures k in m <==> k in keys
    {
      Collections.TallyAt(ls, TypeOfListing, Gathered, k);
    }
  }

  /** The components of one route, in order. */
  method AnalyzeRoute(keys: seq<string>, gathered: map<string, Analysis>, ghost seen: seq<Listing>, route: RouteData)
    returns (keys': seq<string>, gathered': map<string, Analysis>)
    requires Collections.Tallied(keys, gathered, seen, TypeOfListing, Gathered)
    ensures Collections.Tallied(keys', gathered', seen + RouteListings(route), TypeOfListing, Gathered)
  {
    keys', gathered' := keys, gathered;
    if route.components.None? {
      assert seen + RouteListings(route) == seen;
      return;
    }
    var components := route.components.value;
    ghost var ls := RouteListings(route);
    ghost var cur := seen;
    var k := 0;
    assert seen + ls[..0] == seen;
    while k < |components|
      invariant 0 <= k <= |components|
      invariant cur == seen + ls[..k]
      invariant Collections.Tallied(keys', gathered', cur, TypeOfListing, Gathered)
    {
      var l := Listing(route.route, components[k]);
      assert l == ls[k];
      Collections.SeenStep(seen, ls, k);
      keys', gathered' := AnalyzeComponent(keys', gathered', cur, l);
      cur := cur + [l];
      k := k + 1;
    }
    Collections.PrefixFull(ls, k);
  }

  /** One component folded into the analysis of its type, which is created on first sight. */
  method AnalyzeComponent(keys: seq<string>, gathered: map<string, Analysis>, ghost seen: seq<Listing>, l: Listing)
    returns (keys': seq<string>, gathered': map<string, Analysis>)
    requires Collections.Tallied(keys, gathered, seen, TypeOfListing, Gathered)
    ensures Collections.Tallied(keys', gathered', seen + [l], TypeOfListing, Gathered)
  {
    var key := l.component.kind;
    var a := if key in gathered then gathered[key] else Fresh;
    ghost var before := a;
    var c := l.component;
    if c.reusabilityAnalysis.Some? {
      a := a.(reusabilityScore := Max(a.reusabilityScore, Or(c.reusabilityAnalysis.value.reusabilityScore, 0)),
              consistency := Max(a.consistency, Or(c.reusabilityAnalysis.value.consistency, 0)));
    }
    if c.props.Some? {
      a := a.(props := Collections.AddAll(a.props, c.props.value));
    }
    a := a.(instances := a.instances + [Use(l.route, Or(c.instances, 1))]);
    assert a == Gather(before, l);
    GatheredEntry(keys, gathered, seen, l);
    Collections.PushTallied(keys, gathered, seen, l, seen + [l], TypeOfListing, Gathered, a);
    gathered' := gathered[key := a];
    keys' := Collections.Add(keys, key);
  }

  /** The analysis a step stores is the one its type's grown group calls for. */
  lemma GatheredEntry(keys: seq<string>, m: map<string, Analysis>, seen: seq<Listing>, l: Listing)
    requires Collections.Tallied(keys, m, seen, TypeOfListing, Gathered)
    ensures var key := TypeOfListing(l);
      Gather(if key in m then m[key] else Fresh, l) == Gathered(key, Collections.Group(seen, TypeOfListing, key) + [l])
  {
    var key := TypeOfListing(l);
    var g := Collections.Group(seen, TypeOfListing, key);
    if key in m {
      Collections.SeenRecord(keys, m, seen, TypeOfListing, Gathered, key);
    } else {
      Collections.UnseenGroup(keys, m, seen, TypeOfListing, Gathered, key);
      assert [l][..0] == [];
    }
    assert (g + [l])[..|g|] == g;
  }

  /** The second pass: each type's priority set from its usage total and best score. */
  method Prioritize(keys: seq<string>, gathered: map<string, Analysis>) returns (analysis: map<string, Analysis>)
    requires Collections.Distinct(keys) && forall k :: k in gathered <==> k in keys
    ensures analysis == map k | k in gathered :: Prioritized(gathered[k])
  {
    analysis := gathered;
    var i := 0;
    while i < |keys|
      invariant 0 <= i <= |keys|
      invariant forall k :: k in analysis <==> k in gathered
      invariant forall k :: k in analysis ==> analysis[k] == if k in keys[..i] then Prioritized(gathered[k]) else gathered[k]
    {
      var key := keys[i];
      var a := analysis[key];
      var totalUsage := TotalUsage(a.instances);
      var priority := if totalUsage >= 5 && a.reusabilityScore >= 70 then MarkdownNames.High
                      else if totalUsage >= 3 && a.reusabilityScore >= 50 then MarkdownNames.Medium
                      else MarkdownNames.Low;
      assert key !in keys[..i];
      Collections.PrefixStep(keys, i);
      analysis := analysis[key := a.(priority := priority)];
      i := i + 1;
    }
    Collections.PrefixFull(keys, i);
  }
}
