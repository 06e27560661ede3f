/**
 * The parts of a component record that the background service worker
 * derives from a group of sections of one type: the elements common to all
 * instances, the inferred props, the CSS classes and the complexity grade.
 * Each is a method with the loops of the source, proved equal to a
 * specification function whose properties are proved as lemmas.
 */
module ComponentParts {
  import opened Wrappers
  import opened Collections
  import Text
  import opened BackgroundTypes

  // ---------------------------------------------------------------------------
  // findCommonElements

  /**
   * The names in a section's `elements`. The `{direct, all}` count object is
   * read as no names; `FindCommonElementsAsWritten` shows what the code does
   * with it instead.
   */
  function ElementNames(s: RawSection): seq<string>
  {
    if s.elements.ElementList? then s.elements.names else []
  }

  predicate InAll(e: string, g: seq<RawSection>)
  {
    forall j :: 0 <= j < |g| ==> e in ElementNames(g[j])
  }

  /** `element => elementSets.every(set => set.has(element))`. */
  function InAllOf(g: seq<RawSection>): string -> bool
  {
    e => InAll(e, g)
  }

  function CommonElements(g: seq<RawSection>): seq<string>
  {
    if g == [] then [] else Filter(Dedup(ElementNames(g[0])), InAllOf(g))
  }

  /**
   * The common elements are, without duplicates and in the order the first
   * instance lists them, exactly the elements that every instance lists; no
   * instances give none.
   */
  lemma CommonElementsSpec(g: seq<RawSection>)
    ensures var r := CommonElements(g);
      && Distinct(r)
      && (forall e :: e in r <==> g != [] && InAll(e, g))
      && (g != [] ==> IsSubseq(r, Dedup(ElementNames(g[0]))))
  {
    if g != [] {
      var r := CommonElements(g);
      DedupDistinct(ElementNames(g[0]));
      FilterDistinct(Dedup(ElementNames(g[0])), InAllOf(g));
      forall e | g != [] && InAll(e, g) ensures e in r {
        assert e in ElementNames(g[0]);
      }
    }
  }

  /** `findCommonElements(instances)`. */
  method FindCommonElements(instances: seq<RawSection>) returns (common: seq<string>)
    ensures common == CommonElements(instances)
  {
    if |instances| == 0 {
      return [];
    }
    common := KeepListedByAll(Dedup(ElementNames(instances[0])), instances);
  }

  /** The walk over the first instance's set: keep each element every instance lists. */
  method KeepListedByAll(first: seq<string>, instances: seq<RawSection>) returns (common: seq<string>)
    ensures common == Filter(first, InAllOf(instances))
  {
    common := [];
    var k := 0;
    while k < |first|
      invariant 0 <= k <= |first|
      invariant common == Filter(first[..k], InAllOf(instances))
    {
      var inAll := ListedByAll(first[k], instances);
      CommonStep(first, k, instances, inAll);
      ghost var next := Filter(first[..k + 1], InAllOf(instances));
      if inAll {
        common := common + [first[k]];
      }
      assert common == next;
      k := k + 1;
    }
    PrefixFull(first, k);
  }

  lemma CommonStep(first: seq<string>, k: nat, instances: seq<RawSection>, inAll: bool)
    requires k < |first| && inAll == InAll(first[k], instances)
    ensures Filter(first[..k + 1], InAllOf(instances)) == Filter(first[..k], InAllOf(instances)) + (if inAll then [first[k]] else [])
  {
    FilterStep(first, k, InAllOf(instances));
  }

  /** The `every` test of `findCommonElements` for one element. */
  method ListedByAll(e: string, instances: seq<RawSection>) returns (inAll: bool)
    ensures inAll == InAll(e, instances)
  {
    inAll := true;
    var j := 0;
    while j < |instances|
      invariant 0 <= j <= |instances|
      invariant inAll <==> forall m :: 0 <= m < j ==> e in ElementNames(instances[m])
    {
      inAll := inAll && e in ElementNames(instances[j]);
      j := j + 1;
    }
  }

  /** Some instance carries the `{direct, all}` count object as its `elements`. */
  predicate HasCountObject(instances: seq<RawSection>)
  {
    exists j :: 0 <= j < |instances| && instances[j].elements.ElementCounts?
  }

  /** The message of the TypeError V8 throws for `new Set(...)` over a plain object, which is not iterable. */
  const NotIterableMessage := "object is not iterable (cannot read property Symbol(Symbol.iterator))"

  /**
   * `findCommonElements` as the code runs it: `new Set(instance.elements || [])`
   * throws a TypeError on the `{direct, all}` count object, which is not iterable.
   */
  function FindCommonElementsAsWritten(instances: seq<RawSection>): (r: Result<seq<string>>)
    ensures r.Ok? ==> forall j :: 0 <= j < |instances| ==> !instances[j].elements.ElementCounts?
    ensures r.Err? ==> r.error == NotIterableMessage
  {
    if instances == [] then Ok([])
    else if HasCountObject(instances) then Err(NotIterableMessage)
    else Ok(CommonElements(instances))
  }

  /**
   * `findCommonElements(instances)` as it runs: the sets are built one
   * instance at a time, so the first count object throws; otherwise the
   * walk over the first set.
   */
  method FindCommonElementsOrThrow(instances: seq<RawSection>) returns (r: Result<seq<string>>)
    ensures r == FindCommonElementsAsWritten(instances)
  {
    var j := 0;
    while j < |instances|
      invariant 0 <= j <= |instances|
      invariant forall m :: 0 <= m < j ==> !instances[m].elements.ElementCounts?
    {
      if instances[j].elements.ElementCounts? {
        return Err(NotIterableMessage);
      }
      j := j + 1;
    }
    var common := FindCommonElements(instances);
    r := Ok(common);
  }

  /**
   * The content script stores the count object in every section it reports,
   * so a group holding one such section makes the code throw.
   */
  lemma CountObjectThrows(instances: seq<RawSection>, j: nat)
    requires j < |instances| && instances[j].elements.ElementCounts?
    ensures FindCommonElementsAsWritten(instances).Err?
  {
  }

  /** Where every `elements` is a list or absent, the code and the corrected model agree. */
  lemma AsWrittenAgreesOnLists(instances: seq<RawSection>)
    requires forall j :: 0 <= j < |instances| ==> !instances[j].elements.ElementCounts?
    ensures FindCommonElementsAsWritten(instances) == Ok(CommonElements(instances))
  {
  }

  // ---------------------------------------------------------------------------
  // inferProps

  /** The props a component type contributes for one instance. */
  function TypeProps(t: string, s: RawSection): seq<string>
  {
    if t == "Button" then ["onClick", "disabled", "variant"] + (if Truthy(ContentOf(s)) then ["text"] else [])
    else if t == "Header" then ["title", "logo", "navigationItems"]
    else if t == "Card" then ["title", "content", "imageUrl", "href"]
    else []
  }

  /** The prop an attribute name maps to, if any. */
  function AttrProp(key: string): Option<string>
  {
    if key == "id" then Some("id")
    else if key == "class" then Some("className")
    else if key == "href" || key == "src" || key == "alt" || key == "title" then Some(key)
    else None
  }

  function AttrProps(keys: seq<string>): (r: seq<string>)
    ensures forall p :: p in r <==> exists k :: k in keys && AttrProp(k) == Some(p)
  {
    if keys == [] then []
    else
      var init, k := keys[..|keys| - 1], keys[|keys| - 1];
      assert keys == init + [k];
      AttrProps(init) + (match AttrProp(k) case Some(p) => [p] case None => [])
  }

  /** The props one instance contributes, in the order the code adds them. */
  function InstanceProps(s: RawSection, t: string): seq<string>
  {
    TypeProps(t, s) + AttrProps(Keys(s.attributes))
  }

  function PropLists(g: seq<RawSection>, t: string): (ls: seq<seq<string>>)
    ensures |ls| == |g|
    ensures forall j :: 0 <= j < |g| ==> ls[j] == InstanceProps(g[j], t)
  {
    seq(|g|, j requires 0 <= j < |g| => InstanceProps(g[j], t))
  }

  function PropsOf(g: seq<RawSection>, t: string): seq<string>
  {
    Dedup(Concat(PropLists(g, t)))
  }

  lemma PropsMembers(g: seq<RawSection>, t: string, p: string)
    ensures p in PropsOf(g, t) <==> exists j :: 0 <= j < |g| && p in InstanceProps(g[j], t)
  {
    var ls := PropLists(g, t);
    assert p in Concat(ls) <==> exists j :: 0 <= j < |ls| && p in ls[j];
  }

  lemma TextInInstance(s: RawSection, t: string)
    ensures "text" in InstanceProps(s, t) <==> t == "Button" && Truthy(ContentOf(s))
  {
    var a := AttrProps(Keys(s.attributes));
    assert "text" !in a;
  }

  lemma ClassNameInInstance(s: RawSection, t: string)
    ensures "className" in InstanceProps(s, t) <==> "class" in Keys(s.attributes)
  {
    assert "className" !in TypeProps(t, s);
    forall k ensures AttrProp(k) == Some("className") <==> k == "class" {
    }
  }

  lemma IdInInstance(s: RawSection, t: string)
    ensures "id" in InstanceProps(s, t) <==> "id" in Keys(s.attributes)
  {
    assert "id" !in TypeProps(t, s);
    forall k ensures AttrProp(k) == Some("id") <==> k == "id" {
    }
  }

  /** Button groups always get onClick, disabled and variant, and no prop twice. */
  lemma ButtonBaseProps(g: seq<RawSection>)
    requires g != []
    ensures Distinct(PropsOf(g, "Button"))
    ensures "onClick" in PropsOf(g, "Button") && "disabled" in PropsOf(g, "Button") && "variant" in PropsOf(g, "Button")
  {
    DedupDistinct(Concat(PropLists(g, "Button")));
    ButtonInstanceBase(g[0]);
    PropsMembers(g, "Button", "onClick");
    PropsMembers(g, "Button", "disabled");
    PropsMembers(g, "Button", "variant");
  }

  lemma ButtonInstanceBase(s: RawSection)
    ensures var ip := InstanceProps(s, "Button");
      "onClick" in ip && "disabled" in ip && "variant" in ip
  {
    var ip := InstanceProps(s, "Button");
    assert ip[0] == "onClick" && ip[1] == "disabled" && ip[2] == "variant";
  }

  /** A group gets 'text' exactly when it is a Button group and some instance has content. */
  lemma TextProp(g: seq<RawSection>, t: string)
    ensures "text" in PropsOf(g, t) <==> t == "Button" && exists j :: 0 <= j < |g| && Truthy(ContentOf(g[j]))
  {
    PropsMembers(g, t, "text");
    forall j | 0 <= j < |g| ensures "text" in InstanceProps(g[j], t) <==> t == "Button" && Truthy(ContentOf(g[j])) {
      TextInInstance(g[j], t);
    }
  }

  /** 'className' comes exactly from a `class` attribute on some instance. */
  lemma ClassNameProp(g: seq<RawSection>, t: string)
    ensures "className" in PropsOf(g, t) <==> exists j :: 0 <= j < |g| && "class" in Keys(g[j].attributes)
  {
    PropsMembers(g, t, "className");
    forall j | 0 <= j < |g| ensures "className" in InstanceProps(g[j], t) <==> "class" in Keys(g[j].attributes) {
      ClassNameInInstance(g[j], t);
    }
  }

  /** 'id' comes exactly from an `id` attribute on some instance. */
  lemma IdProp(g: seq<RawSection>, t: string)
    ensures "id" in PropsOf(g, t) <==> exists j :: 0 <= j < |g| && "id" in Keys(g[j].attributes)
  {
    PropsMembers(g, t, "id");
    forall j | 0 <= j < |g| ensures "id" in InstanceProps(g[j], t) <==> "id" in Keys(g[j].attributes) {
      IdInInstance(g[j], t);
    }
  }

  lemma AddAllThree(s: seq<string>, a: string, b: string, c: string)
    ensures Add(Add(Add(s, a), b), c) == AddAll(s, [a, b, c])
  {
    assert [a, b, c] == [a, b] + [c];
    assert [a, b] == [a] + [b];
    assert [a] == [] + [a];
    AddAllSnoc(s, [], a);
    AddAllSnoc(s, [a], b);
    AddAllSnoc(s, [a, b], c);
  }

  lemma AttrPropsStep(keys: seq<string>, j: nat)
    requires j < |keys|
    ensures AttrProps(keys[..j + 1]) == AttrProps(keys[..j]) + (match AttrProp(keys[j]) case Some(p) => [p] case None => [])
  {
    assert keys[..j + 1][..j] == keys[..j];
  }

  /** The inner loop of `inferProps`: the props the attribute names map to. */
  method AddAttributeProps(props: seq<string>, keys: seq<string>) returns (r: seq<string>)
    ensures r == AddAll(props, AttrProps(keys))
  {
    r := props;
    var j := 0;
    while j < |keys|
      invariant 0 <= j <= |keys|
      invariant r == AddAll(props, AttrProps(keys[..j]))
    {
      var key := keys[j];
      AttrPropsStep(keys, j);
      match AttrProp(key) {
        case Some(p) =>
          AddAllSnoc(props, AttrProps(keys[..j]), p);
          r := Add(r, p);
        case None =>
          assert AttrProps(keys[..j + 1]) == AttrProps(keys[..j]);
      }
      j := j + 1;
    }
    PrefixFull(keys, j);
  }

  /** The first half of `inferProps`'s loop body: the props of the component type. */
  method AddTypeProps(props: seq<string>, t: string, s: RawSection) returns (r: seq<string>)
    ensures r == AddAll(props, TypeProps(t, s))
  {
    r := props;
    if t == "Button" {
      ButtonPropsAdded(props, s);
      r := Add(Add(Add(r, "onClick"), "disabled"), "variant");
      if Truthy(ContentOf(s)) {
        r := Add(r, "text");
      }
    } else if t == "Header" {
      HeaderPropsAdded(props, s);
      r := Add(Add(Add(r, "title"), "logo"), "navigationItems");
    } else if t == "Card" {
      CardPropsAdded(props, s);
      r := Add(Add(Add(Add(r, "title"), "content"), "imageUrl"), "href");
    } else {
      assert TypeProps(t, s) == [];
    }
  }

  lemma ButtonPropsAdded(props: seq<string>, s: RawSection)
    ensures var b := Add(Add(Add(props, "onClick"), "disabled"), "variant");
      AddAll(props, TypeProps("Button", s)) == if Truthy(ContentOf(s)) then Add(b, "text") else b
  {
    AddAllThree(props, "onClick", "disabled", "variant");
    if Truthy(ContentOf(s)) {
      AddAllSnoc(props, ["onClick", "disabled", "variant"], "text");
      assert TypeProps("Button", s) == ["onClick", "disabled", "variant"] + ["text"];
    } else {
      assert TypeProps("Button", s) == ["onClick", "disabled", "variant"];
    }
  }

  lemma HeaderPropsAdded(props: seq<string>, s: RawSection)
    ensures AddAll(props, TypeProps("Header", s)) == Add(Add(Add(props, "title"), "logo"), "navigationItems")
  {
    AddAllThree(props, "title", "logo", "navigationItems");
    assert TypeProps("Header", s) == ["title", "logo", "navigationItems"];
  }

  lemma CardPropsAdded(props: seq<string>, s: RawSection)
    ensures AddAll(props, TypeProps("Card", s))
      == Add(Add(Add(Add(props, "title"), "content"), "imageUrl"), "href")
  {
    AddAllThree(props, "title", "content", "imageUrl");
    AddAllSnoc(props, ["title", "content", "imageUrl"], "href");
    assert TypeProps("Card", s) == ["title", "content", "imageUrl"] + ["href"];
  }

  /** `inferProps(instances, componentType)`. */
  method InferProps(instances: seq<RawSection>, t: string) returns (props: seq<string>)
    ensures props == PropsOf(instances, t)
  {
    ghost var lists := PropLists(instances, t);
    props := [];
    var i := 0;
    while i < |instances|
      invariant 0 <= i <= |instances|
      invariant props == Dedup(Concat(lists[..i]))
    {
      var s := instances[i];
      ghost var before := props;
      props := AddTypeProps(props, t, s);
      props := AddAttributeProps(props, Keys(s.attributes));
      AddAllConcat(before, TypeProps(t, s), AttrProps(Keys(s.attributes)));
      DedupConcatStep(lists, i);
      i := i + 1;
    }
    PrefixFull(lists, i);
  }

  // ---------------------------------------------------------------------------
  // extractCssClasses

  /** `cls.trim()` of each part, keeping the non-empty ones, in order. */
  function Tokens(parts: seq<string>): (r: seq<string>)
    ensures forall c :: c in r ==> c != "" && exists p :: p in parts && c == Text.Trim(p)
  {
    if parts == [] then []
    else
      var init, p := parts[..|parts| - 1], parts[|parts| - 1];
      var t := Text.Trim(p);
      assert forall q :: q in init ==> q in parts;
      Tokens(init) + (if t != "" then [t] else [])
  }

  lemma TokensStep(parts: seq<string>, j: nat)
    requires j < |parts|
    ensures var t := Text.Trim(parts[j]);
      Tokens(parts[..j + 1]) == Tokens(parts[..j]) + (if t != "" then [t] else [])
  {
    assert parts[..j + 1][..j] == parts[..j];
  }

  /** The classes one instance lists: its `class` attribute split on spaces, trimmed. */
  function ClassTokens(s: RawSection): seq<string>
  {
    if ClassAttr(s) == "" then [] else Tokens(Text.Split(ClassAttr(s), {' '}))
  }

  function ClassLists(g: seq<RawSection>): (ls: seq<seq<string>>)
    ensures |ls| == |g|
    ensures forall j :: 0 <= j < |g| ==> ls[j] == ClassTokens(g[j])
  {
    seq(|g|, j requires 0 <= j < |g| => ClassTokens(g[j]))
  }

  function CssClassesOf(g: seq<RawSection>): seq<string>
  {
    Dedup(Concat(ClassLists(g)))
  }

  lemma ContainsChar(s: string, r: string, c: char)
    requires Text.Contains(s, r) && c in r
    ensures c in s
  {
    var i := Text.ContainsWitness(s, r);
    var k :| 0 <= k < |r| && r[k] == c;
    assert s[i + k] == r[k];
  }

  /** Trimming adds no character. */
  lemma TrimKeepsOut(p: string, ch: char)
    requires ch !in p
    ensures ch !in Text.Trim(p)
  {
    if ch in Text.Trim(p) {
      ContainsChar(p, Text.Trim(p), ch);
    }
  }

  /** Each class an instance lists is a non-empty word without a space. */
  lemma ClassTokenIsWord(s: RawSection, c: string)
    requires c in ClassTokens(s)
    ensures c != "" && ' ' !in c
  {
    var parts := Text.Split(ClassAttr(s), {' '});
    assert c in Tokens(parts);
    var p :| p in parts && c == Text.Trim(p);
    var k :| 0 <= k < |parts| && parts[k] == p;
    assert ' ' !in parts[k];
    TrimKeepsOut(p, ' ');
  }

  /**
   * The classes of a group: no duplicates, and exactly the words that some
   * instance lists.
   */
  lemma CssClassesSpec(g: seq<RawSection>)
    ensures Distinct(CssClassesOf(g))
    ensures forall c :: c in CssClassesOf(g) <==> exists j :: 0 <= j < |g| && c in ClassTokens(g[j])
  {
    DedupDistinct(Concat(ClassLists(g)));
  }

  /** Each class of a group is a non-empty word without a space. */
  lemma CssClassesAreWords(g: seq<RawSection>)
    ensures forall c :: c in CssClassesOf(g) ==> c != "" && ' ' !in c
  {
    var ls := ClassLists(g);
    forall c | c in CssClassesOf(g)
      ensures c != "" && ' ' !in c
    {
      assert c in Concat(ls);
      var j :| 0 <= j < |ls| && c in ls[j];
      ClassTokenIsWord(g[j], c);
    }
  }

  /** The inner loop of `extractCssClasses`: each trimmed, non-empty part. */
  method AddClassTokens(classes: seq<string>, parts: seq<string>) returns (r: seq<string>)
    ensures r == AddAll(classes, Tokens(parts))
  {
    r := classes;
    var j := 0;
    while j < |parts|
      invariant 0 <= j <= |parts|
      invariant r == AddAll(classes, Tokens(parts[..j]))
    {
      var t := Text.Trim(parts[j]);
      TokensStep(parts, j);
      if t != "" {
        AddAllSnoc(classes, Tokens(parts[..j]), t);
        r := Add(r, t);
      } else {
        assert Tokens(parts[..j + 1]) == Tokens(parts[..j]);
      }
      j := j + 1;
    }
    PrefixFull(parts, j);
  }

  /** `extractCssClasses(instances)`. */
  method ExtractCssClasses(instances: seq<RawSection>) returns (classes: seq<string>)
    ensures classes == CssClassesOf(instances)
  {
    ghost var lists := ClassLists(instances);
    classes := [];
    var i := 0;
    while i < |instances|
      invariant 0 <= i <= |instances|
      invariant classes == Dedup(Concat(lists[..i]))
    {
      var cls := ClassAttr(instances[i]);
      if cls != "" {
        classes := AddClassTokens(classes, Text.Split(cls, {' '}));
      }
      DedupConcatStep(lists, i);
      i := i + 1;
    }
    PrefixFull(lists, i);
  }

  // ---------------------------------------------------------------------------
  // calculateComplexity

  /** `(elements || []).length`; the count object has no length, which makes the sum NaN (`None`). */
  function ElementCount(e: Elements): Option<nat>
  {
    match e
    case NoElements => Some(0)
    case ElementList(names) => Some(|names|)
    case ElementCounts(_, _) => None
  }

  /** One instance's `1 + 0.5 children + 0.2 attributes + 0.3 elements`, times ten. */
  function Score(s: RawSection): Option<nat>
  {
    match ElementCount(s.elements)
    case None => None
    case Some(e) => Some(10 + 5 * |s.children| + 2 * |s.attributes| + 3 * e)
  }

  /** The summed scores; NaN absorbs. */
  function TotalScore(g: seq<RawSection>): Option<nat>
  {
    if g == [] then Some(0)
    else
      match (TotalScore(g[..|g| - 1]), Score(g[|g| - 1]))
      case (Some(a), Some(b)) => Some(a + b)
      case _ => None
  }

  /**
   * The grade of the average: below 2 is simple, below 5 moderate, else
   * complex. NaN (no instances, or a count object) fails both tests.
   */
  function ComplexityOf(g: seq<RawSection>): Complexity
  {
    var total := TotalScore(g);
    if g == [] || total.None? then Complex
    else if total.value < 20 * |g| then Simple
    else if total.value < 50 * |g| then Moderate
    else Complex
  }

  predicate Countable(g: seq<RawSection>)
  {
    forall j :: 0 <= j < |g| ==> ElementCount(g[j].elements).Some?
  }

  /** One instance's complexity in the source's own real arithmetic. */
  function RealScore(s: RawSection): real
    requires ElementCount(s.elements).Some?
  {
    1.0 + 0.5 * (|s.children| as real) + 0.2 * (|s.attributes| as real)
      + 0.3 * (ElementCount(s.elements).value as real)
  }

  function RealTotal(g: seq<RawSection>): real
    requires Countable(g)
  {
    if g == [] then 0.0
    else
      var init := g[..|g| - 1];
      assert forall j :: 0 <= j < |init| ==> init[j] == g[j];
      RealTotal(init) + RealScore(g[|g| - 1])
  }

  lemma {:induction false} TotalScoreIsTenfold(g: seq<RawSection>)
    requires Countable(g)
    ensures TotalScore(g).Some? && TotalScore(g).value as real == 10.0 * RealTotal(g)
    decreases |g|
  {
    if g != [] {
      var init := g[..|g| - 1];
      assert forall j :: 0 <= j < |init| ==> init[j] == g[j];
      TotalScoreIsTenfold(init);
    }
  }

  lemma ScaleLess(t: real, n: real, c: real)
    requires n > 0.0
    ensures t / n < c <==> t < c * n
  {
    assert t == (t / n) * n;
  }

  /** The source's thresholds on the average complexity. */
  function Grade(avg: real): Complexity
  {
    if avg < 2.0 then Simple else if avg < 5.0 then Moderate else Complex
  }

  lemma TenfoldLess(t: nat, total: real, m: nat)
    requires t as real == 10.0 * total
    ensures t < 10 * m <==> total < m as real
  {
  }

  /**
   * For sections whose `elements` have a length, the scaled integer grade is
   * the source's grade of the real-valued average.
   */
  lemma ComplexityMatchesAverage(g: seq<RawSection>)
    requires g != [] && Countable(g)
    ensures ComplexityOf(g) == Grade(RealTotal(g) / (|g| as real))
  {
    TotalScoreIsTenfold(g);
    AverageThresholds(TotalScore(g).value, RealTotal(g), |g|);
    GradeOfTotal(g, TotalScore(g).value, RealTotal(g) / (|g| as real));
  }

  /** The scaled integer thresholds are the real ones on the average. */
  lemma AverageThresholds(t: nat, total: real, k: nat)
    requires k > 0 && t as real == 10.0 * total
    ensures t < 20 * k <==> total / (k as real) < 2.0
    ensures t < 50 * k <==> total / (k as real) < 5.0
  {
    var n := k as real;
    TenfoldLess(t, total, 2 * k);
    assert (2 * k) as real == 2.0 * n;
    ScaleLess(total, n, 2.0);
    TenfoldLess(t, total, 5 * k);
    assert (5 * k) as real == 5.0 * n;
    ScaleLess(total, n, 5.0);
  }

  /** Two threshold agreements are enough for the two grades to agree. */
  lemma GradeOfTotal(g: seq<RawSection>, t: nat, avg: real)
    requires g != [] && TotalScore(g) == Some(t)
    requires t < 20 * |g| <==> avg < 2.0
    requires t < 50 * |g| <==> avg < 5.0
    ensures ComplexityOf(g) == Grade(avg)
  {
  }

  /** A lone instance without children, attributes or elements is simple. */
  lemma LoneBareInstanceIsSimple(s: RawSection)
    requires s.children == [] && s.attributes == [] && ElementCount(s.elements) == Some(0)
    ensures ComplexityOf([s]) == Simple
  {
    assert [s][..0] == [];
    assert Score(s) == Some(10);
    assert TotalScore([s]) == Some(10);
  }

  /** Any instance whose `elements` is the count object makes the grade 'complex' (NaN). */
  lemma {:induction false} CountObjectIsComplex(g: seq<RawSection>, j: nat)
    requires j < |g| && g[j].elements.ElementCounts?
    ensures TotalScore(g).None? && ComplexityOf(g) == Complex
    decreases |g|
  {
    if j < |g| - 1 {
      CountObjectIsComplex(g[..|g| - 1], j);
    }
  }

  /** `calculateComplexity(instances)`. */
  method CalculateComplexity(instances: seq<RawSection>) returns (c: Complexity)
    ensures c == ComplexityOf(instances)
  {
    var total: Option<nat> := Some(0);
    var i := 0;
    while i < |instances|
      invariant 0 <= i <= |instances|
      invariant total == TotalScore(instances[..i])
    {
      var score := Score(instances[i]);
      assert instances[..i + 1][..i] == instances[..i];
      if total.Some? && score.Some? {
        total := Some(total.value + score.value);
      } else {
        total := None;
      }
      i := i + 1;
    }
    PrefixFull(instances, i);
    var n := |instances|;
    if n == 0 || total.None? {
      c := Complex;
    } else if total.value < 20 * n {
      c := Simple;
    } else if total.value < 50 * n {
      c := Moderate;
    } else {
      c := Complex;
    }
  }
}
