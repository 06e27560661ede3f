/**
 * The component generator: the settings it reads from sync storage, the
 * component name under each naming convention, the props it infers for a
 * section (an insertion-ordered `Map` from prop name to TypeScript type),
 * the props interface and types file text, the JSX body, the style file
 * and class names, the package dependency tables, the main index, and the
 * dispatch on the component framework.
 *
 * The file templates the generator writes besides these (style sheets,
 * stories, tests) are a parameter, `templates`.
 */
module ComponentGenerator {
  import opened Wrappers
  import Text
  import Collections
  import Options

  // ---------------------------------------------------------------------------
  // Insertion-ordered string maps

  /**
   * One entry of a `Map` or of a plain object whose keys are not array
   * indices: both enumerate their keys in first-insertion order.
   */
  datatype Entry = Entry(key: string, value: string)

  function Keys(m: seq<Entry>): (r: seq<string>)
    ensures |r| == |m|
    ensures forall i :: 0 <= i < |m| ==> r[i] == m[i].key
  {
    if m == [] then [] else [m[0].key] + Keys(m[1..])
  }

  predicate Has(m: seq<Entry>, k: string)
  {
    k in Keys(m)
  }

  /**
   * `map.set(k, v)` (and `obj[k] = v`): a present key keeps its place and
   * takes the new value, an absent one is appended.
   */
  function Put(m: seq<Entry>, k: string, v: string): (r: seq<Entry>)
    ensures !Has(m, k) ==> r == m + [Entry(k, v)]
  {
    if Has(m, k) then m[Position(m, k) := Entry(k, v)] else m + [Entry(k, v)]
  }

  /**
   * The keys after a `Put` are the keys before it with `k` added as to an
   * insertion-ordered set, and no entry appears that was not there or put.
   */
  lemma PutSpec(m: seq<Entry>, k: string, v: string)
    ensures Keys(Put(m, k, v)) == Collections.Add(Keys(m), k)
    ensures forall e :: e in Put(m, k, v) ==> e in m || e == Entry(k, v)
  {
    if Has(m, k) {
      assert Keys(Put(m, k, v)) == Keys(m);
    } else {
      assert Keys(Put(m, k, v)) == Keys(m) + [k];
    }
  }

  /** Where key `k` sits. */
  function Position(m: seq<Entry>, k: string): (i: nat)
    requires Has(m, k)
    ensures i < |m| && m[i].key == k
    ensures forall j :: 0 <= j < i ==> m[j].key != k
  {
    if m[0].key == k then 0
    else
      assert Keys(m) == [m[0].key] + Keys(m[1..]);
      Position(m[1..], k) + 1
  }

  /** `map.get(k)`, or None for a key that is not there. */
  function Lookup(m: seq<Entry>, k: string): (r: Option<string>)
    ensures r.Some? <==> Has(m, k)
  {
    if Has(m, k) then Some(m[Position(m, k)].value) else None
  }

  /** The first entry with key `k` is where `Position` finds it. */
  lemma PositionAt(m: seq<Entry>, k: string, i: nat)
    requires i < |m| && m[i].key == k
    requires forall j :: 0 <= j < i ==> m[j].key != k
    ensures Has(m, k) && Position(m, k) == i
  {
    assert Keys(m)[i] == k;
  }

  /** After `set(k, v)`, `get(k)` is `v` and every other key reads as before. */
  lemma PutLookup(m: seq<Entry>, k: string, v: string, j: string)
    ensures Lookup(Put(m, k, v), j) == if j == k then Some(v) else Lookup(m, j)
  {
    var r := Put(m, k, v);
    if j == k {
      if Has(m, k) {
        PositionAt(r, k, Position(m, k));
      } else {
        PositionAt(r, k, |m|);
      }
    } else if Has(m, j) {
      var q := Position(m, j);
      assert r[q] == m[q];
      PositionAt(r, j, q);
    } else {
      assert !Has(r, j);
    }
  }


  // ---------------------------------------------------------------------------
  // Settings

  const FrameworkKey := "componentFramework"
  const OutputFormatKey := "outputFormat"
  const StylingKey := "stylingFramework"
  const NamingKey := "namingConvention"
  const AccessibilityKey := "includeAccessibility"
  const TestsKey := "includeTests"
  const StorybookKey := "includeStorybook"

  /**
   * The settings the generator reads: the four choices as stored (they are
   * compared with `===` against string constants), and the three switches
   * as JavaScript truthiness.
   */
  datatype GeneratorSettings = GeneratorSettings(
    framework: Option<Options.Setting>,
    outputFormat: Option<Options.Setting>,
    styling: Option<Options.Setting>,
    naming: Option<Options.Setting>,
    includeAccessibility: bool,
    includeTests: bool,
    includeStorybook: bool)

  function SettingsOf(stored: map<string, Options.Setting>): GeneratorSettings
  {
    GeneratorSettings(
      Options.Get(stored, FrameworkKey),
      Options.Get(stored, OutputFormatKey),
      Options.Get(stored, StylingKey),
      Options.Get(stored, NamingKey),
      Options.Truthy(Options.Get(stored, AccessibilityKey)),
      Options.Truthy(Options.Get(stored, TestsKey)),
      Options.Truthy(Options.Get(stored, StorybookKey)))
  }

  /** `value === s` for a string constant `s`. */
  predicate Is(value: Option<Options.Setting>, s: string)
  {
    value == Some(Options.Text(s))
  }

  predicate IsTypeScript(s: GeneratorSettings)
  {
    Is(s.outputFormat, "typescript")
  }

  // ---------------------------------------------------------------------------
  // Component names

  const PascalCase := "pascalCase"
  const CamelCase := "camelCase"
  const KebabCase := "kebab-case"
  const SnakeCase := "snake_case"

  /** `charAt(0).toLowerCase() + slice(1)`. */
  function LowerFirst(s: string): (r: string)
    ensures |r| == |s|
    ensures s != [] ==> r[0] == Text.Lower(s[0]) && r[1..] == s[1..]
  {
    if s == [] then [] else [Text.Lower(s[0])] + s[1..]
  }

  function UpperCount(s: string): nat
  {
    if s == [] then 0 else (if Text.IsUpper(s[0]) then 1 else 0) + UpperCount(s[1..])
  }

  function Occurrences(s: string, c: char): nat
  {
    if s == [] then 0 else (if s[0] == c then 1 else 0) + Occurrences(s[1..], c)
  }

  /** `s` without any occurrence of `c`. */
  function Drop(s: string, c: char): string
  {
    if s == [] then [] else (if s[0] == c then [] else [s[0]]) + Drop(s[1..], c)
  }

  /** `s.replace(/([A-Z])/g, sep + '$1')`: the separator before every upper-case letter. */
  function MarkUpper(s: string, sep: char): (r: string)
  {
    if s == [] then [] else (if Text.IsUpper(s[0]) then [sep, s[0]] else [s[0]]) + MarkUpper(s[1..], sep)
  }

  /** `generateComponentName`: the type without non-alphanumerics, in the configured case. */
  function ComponentName(naming: Option<Options.Setting>, kind: string): string
  {
    var name := Text.KeepAlnum(kind);
    if Is(naming, CamelCase) then LowerFirst(name)
    else if Is(naming, KebabCase) then Text.LowerStr(MarkUpper(name, '-'))
    else if Is(naming, SnakeCase) then Text.LowerStr(MarkUpper(name, '_'))
    else Text.Capitalize(name)
  }

  /** A separator that is not a letter marks an upper-case letter and nothing else. */
  predicate Separator(sep: char)
  {
    !Text.IsAlpha(sep)
  }

  lemma {:induction false} DropMarkUpper(s: string, sep: char)
    requires sep !in s
    ensures Drop(MarkUpper(s, sep), sep) == s
    ensures Occurrences(MarkUpper(s, sep), sep) == UpperCount(s)
    decreases |s|
  {
    if s != [] {
      var rest := MarkUpper(s[1..], sep);
      DropMarkUpper(s[1..], sep);
      if Text.IsUpper(s[0]) {
        assert ([sep, s[0]] + rest)[1..] == [s[0]] + rest;
        assert ([s[0]] + rest)[1..] == rest;
      } else {
        assert ([s[0]] + rest)[1..] == rest;
      }
    }
  }

  /** Lower-casing neither creates nor removes a separator. */
  lemma {:induction false} DropLower(t: string, sep: char)
    requires Separator(sep)
    ensures Drop(Text.LowerStr(t), sep) == Text.LowerStr(Drop(t, sep))
    ensures Occurrences(Text.LowerStr(t), sep) == Occurrences(t, sep)
    decreases |t|
  {
    if t != [] {
      DropLower(t[1..], sep);
      assert Text.LowerStr(t)[1..] == Text.LowerStr(t[1..]);
      if t[0] != sep {
        assert Text.LowerStr([t[0]] + Drop(t[1..], sep)) == [Text.Lower(t[0])] + Text.LowerStr(Drop(t[1..], sep));
      }
    }
  }

  /**
   * The pascalCase, camelCase and default names are the type's alphanumerics
   * with only the first character's case changed: upper for pascalCase and
   * the default, lower for camelCase.
   */
  lemma CasedName(naming: Option<Options.Setting>, kind: string)
    requires !Is(naming, KebabCase) && !Is(naming, SnakeCase)
    ensures var r, name := ComponentName(naming, kind), Text.KeepAlnum(kind);
      |r| == |name| && (r != [] ==> r[1..] == name[1..]) &&
      (forall i :: 0 <= i < |r| ==> Text.IsAlnum(r[i])) &&
      (r != [] && Is(naming, CamelCase) ==> !Text.IsUpper(r[0])) &&
      (r != [] && !Is(naming, CamelCase) ==> !Text.IsLower(r[0]))
  {
  }

  /**
   * A kebab-case or snake_case name is the lower-cased alphanumerics of the
   * type with one separator per upper-case letter, and no upper-case letter
   * left.
   */
  lemma SeparatedName(naming: Option<Options.Setting>, kind: string, sep: char)
    requires (Is(naming, KebabCase) && sep == '-') || (Is(naming, SnakeCase) && sep == '_')
    ensures var r, name := ComponentName(naming, kind), Text.KeepAlnum(kind);
      Drop(r, sep) == Text.LowerStr(name) &&
      Occurrences(r, sep) == UpperCount(name) &&
      forall i :: 0 <= i < |r| ==> !Text.IsUpper(r[i])
  {
    var name := Text.KeepAlnum(kind);
    assert Separator(sep) && sep !in name;
    DropMarkUpper(name, sep);
    DropLower(MarkUpper(name, sep), sep);
  }

  /** A pascalCase name is its own pascalCase name. */
  lemma PascalIdempotent(naming: Option<Options.Setting>, kind: string)
    requires !Is(naming, CamelCase) && !Is(naming, KebabCase) && !Is(naming, SnakeCase)
    ensures ComponentName(naming, ComponentName(naming, kind)) == ComponentName(naming, kind)
  {
    var r := ComponentName(naming, kind);
    CasedName(naming, kind);
    Text.KeepAlnumOfAlnum(r);
  }

  // ---------------------------------------------------------------------------
  // Props

  const StringType := "string"
  const HandlerType := "() => void"

  const TitleProp := "title"
  const TextProp := "text"
  const ImageUrlProp := "imageUrl"
  const ImageAltProp := "imageAlt"
  const HrefProp := "href"
  const OnClickProp := "onClick"
  const SubtitleProp := "subtitle"
  const OnButtonClickProp := "onButtonClick"
  const LinkUrlProp := "linkUrl"
  const ClassNameProp := "className"
  const AriaLabelProp := "ariaLabel"

  /** The props inferred from a section's content and elements. */
  const InferredProps: seq<string> := [
    TitleProp, TextProp, ImageUrlProp, ImageAltProp, HrefProp, OnClickProp,
    SubtitleProp, OnButtonClickProp, LinkUrlProp]

  /** The TypeScript type of each prop: the click handlers are functions, the rest strings. */
  function PropType(name: string): string
  {
    if name == OnClickProp || name == OnButtonClickProp then HandlerType else StringType
  }

  /** A section as the generator receives it; `content` and `elements` may be missing. */
  datatype SectionData = SectionData(kind: string, content: Option<string>, elements: Option<seq<string>>)

  /** Either word occurs in the text. */
  predicate Mentions(text: string, a: string, b: string)
  {
    Text.Contains(text, a) || Text.Contains(text, b)
  }

  /** `props.set(k, type)` when the text mentioned what `k` stands for. */
  function Suggest(m: seq<Entry>, mentioned: bool, k: string): seq<Entry>
  {
    if mentioned then Put(m, k, PropType(k)) else m
  }

  /** The image url and its alt text, set together. */
  function SuggestImage(m: seq<Entry>, mentioned: bool): seq<Entry>
  {
    if mentioned then Put(Put(m, ImageUrlProp, PropType(ImageUrlProp)), ImageAltProp, PropType(ImageAltProp)) else m
  }

  /** The props the section's content suggests; a missing or empty content suggests none. */
  function ContentProps(content: Option<string>): seq<Entry>
  {
    if content.None? || content.value == "" then [] else ContentSuggestions(Text.LowerStr(content.value))
  }

  /** The props a lower-cased content text suggests. */
  function ContentSuggestions(c: string): seq<Entry>
  {
    var m1 := Suggest([], Mentions(c, "title", "heading"), TitleProp);
    var m2 := Suggest(m1, Mentions(c, "text", "description"), TextProp);
    var m3 := SuggestImage(m2, Mentions(c, "image", "img"));
    var m4 := Suggest(m3, Mentions(c, "link", "href"), HrefProp);
    Suggest(m4, Mentions(c, "button", "click"), OnClickProp)
  }

  /** The props one element name adds. */
  function ElementProps(m: seq<Entry>, element: string): seq<Entry>
  {
    var el := Text.LowerStr(element);
    var m1 := Suggest(m, Text.Contains(el, "title"), TitleProp);
    var m2 := Suggest(m1, Text.Contains(el, "subtitle"), SubtitleProp);
    var m3 := SuggestImage(m2, Text.Contains(el, "image"));
    var m4 := Suggest(m3, Text.Contains(el, "button"), OnButtonClickProp);
    Suggest(m4, Text.Contains(el, "link"), LinkUrlProp)
  }

  /** The props the elements add, one element after another. */
  function ElementsProps(m: seq<Entry>, elements: seq<string>): seq<Entry>
  {
    if elements == [] then m
    else ElementProps(ElementsProps(m, elements[..|elements| - 1]), elements[|elements| - 1])
  }

  /** `generatePropsInterface`: content props, element props, then `className` and, when asked for, `ariaLabel`. */
  function PropsInterface(section: SectionData, accessibility: bool): seq<Entry>
  {
    CommonProps(InferredPart(section), accessibility)
  }

  /** The props every component has: `className`, and `ariaLabel` when accessibility is asked for. */
  function CommonProps(m: seq<Entry>, accessibility: bool): seq<Entry>
  {
    var m1 := Put(m, ClassNameProp, StringType);
    if accessibility then Put(m1, AriaLabelProp, StringType) else m1
  }

  /** Every entry is an inferred prop with its type. */
  predicate Typed(m: seq<Entry>)
  {
    forall e :: e in m ==> e.key in InferredProps && e.value == PropType(e.key)
  }

  /** An image url always comes with its alt text. */
  predicate Paired(m: seq<Entry>)
  {
    Has(m, ImageUrlProp) ==> Has(m, ImageAltProp)
  }

  /**
   * What every props map built so far satisfies: no name twice, only
   * inferred names, each with its type, and an image url always paired
   * with its alt text.
   */
  ghost predicate InferredMap(m: seq<Entry>)
  {
    Collections.Distinct(Keys(m)) && Typed(m) && Paired(m)
  }

  lemma HasPut(m: seq<Entry>, k: string, v: string, j: string)
    ensures Has(Put(m, k, v), j) <==> Has(m, j) || j == k
  {
    PutSpec(m, k, v);
  }

  lemma PutTyped(m: seq<Entry>, k: string)
    requires Typed(m) && k in InferredProps
    ensures Typed(Put(m, k, PropType(k)))
  {
    var r := Put(m, k, PropType(k));
    PutSpec(m, k, PropType(k));
    forall e | e in r
      ensures e.key in InferredProps && e.value == PropType(e.key)
    {
      assert e in m || e == Entry(k, PropType(k));
    }
  }

  lemma PutInferred(m: seq<Entry>, k: string)
    requires InferredMap(m) && k in InferredProps && k != ImageUrlProp
    ensures InferredMap(Put(m, k, PropType(k)))
  {
    PutSpec(m, k, PropType(k));
    Collections.AddDistinct(Keys(m), k);
    PutTyped(m, k);
    HasPut(m, k, PropType(k), ImageUrlProp);
    HasPut(m, k, PropType(k), ImageAltProp);
  }

  lemma SuggestInferred(m: seq<Entry>, mentioned: bool, k: string)
    requires InferredMap(m) && k in InferredProps && k != ImageUrlProp
    ensures InferredMap(Suggest(m, mentioned, k))
  {
    if mentioned {
      PutInferred(m, k);
    }
  }

  lemma SuggestImageInferred(m: seq<Entry>, mentioned: bool)
    requires InferredMap(m)
    ensures InferredMap(SuggestImage(m, mentioned))
  {
    if mentioned {
      var m1 := Put(m, ImageUrlProp, PropType(ImageUrlProp));
      PutSpec(m, ImageUrlProp, PropType(ImageUrlProp));
      PutSpec(m1, ImageAltProp, PropType(ImageAltProp));
      Collections.AddDistinct(Keys(m), ImageUrlProp);
      Collections.AddDistinct(Keys(m1), ImageAltProp);
      PutTyped(m, ImageUrlProp);
      PutTyped(m1, ImageAltProp);
      HasPut(m1, ImageAltProp, PropType(ImageAltProp), ImageAltProp);
    }
  }

  lemma ContentPropsInferred(content: Option<string>)
    ensures InferredMap(ContentProps(content))
  {
    if content.Some? && content.value != "" {
      ContentSuggestionsInferred(Text.LowerStr(content.value));
    }
  }

  lemma ContentSuggestionsInferred(c: string)
    ensures InferredMap(ContentSuggestions(c))
  {
    var m1 := Suggest([], Mentions(c, "title", "heading"), TitleProp);
    SuggestInferred([], Mentions(c, "title", "heading"), TitleProp);
    var m2 := Suggest(m1, Mentions(c, "text", "description"), TextProp);
    SuggestInferred(m1, Mentions(c, "text", "description"), TextProp);
    var m3 := SuggestImage(m2, Mentions(c, "image", "img"));
    SuggestImageInferred(m2, Mentions(c, "image", "img"));
    var m4 := Suggest(m3, Mentions(c, "link", "href"), HrefProp);
    SuggestInferred(m3, Mentions(c, "link", "href"), HrefProp);
    SuggestInferred(m4, Mentions(c, "button", "click"), OnClickProp);
  }

  lemma ElementPropsInferred(m: seq<Entry>, element: string)
    requires InferredMap(m)
    ensures InferredMap(ElementProps(m, element))
  {
    var el := Text.LowerStr(element);
    var m1 := Suggest(m, Text.Contains(el, "title"), TitleProp);
    SuggestInferred(m, Text.Contains(el, "title"), TitleProp);
    var m2 := Suggest(m1, Text.Contains(el, "subtitle"), SubtitleProp);
    SuggestInferred(m1, Text.Contains(el, "subtitle"), SubtitleProp);
    var m3 := SuggestImage(m2, Text.Contains(el, "image"));
    SuggestImageInferred(m2, Text.Contains(el, "image"));
    var m4 := Suggest(m3, Text.Contains(el, "button"), OnButtonClickProp);
    SuggestInferred(m3, Text.Contains(el, "button"), OnButtonClickProp);
    SuggestInferred(m4, Text.Contains(el, "link"), LinkUrlProp);
  }

  lemma {:induction false} ElementsPropsInferred(m: seq<Entry>, elements: seq<string>)
    requires InferredMap(m)
    ensures InferredMap(ElementsProps(m, elements))
    decreases |elements|
  {
    if elements != [] {
      ElementsPropsInferred(m, elements[..|elements| - 1]);
      ElementPropsInferred(ElementsProps(m, elements[..|elements| - 1]), elements[|elements| - 1]);
    }
  }

  /** The props inferred from the section, before the common ones. */
  function InferredPart(section: SectionData): seq<Entry>
  {
    ElementsProps(ContentProps(section.content), section.elements.GetOr([]))
  }

  lemma InferredPartSpec(section: SectionData)
    ensures InferredMap(InferredPart(section))
    ensures !Has(InferredPart(section), ClassNameProp) && !Has(InferredPart(section), AriaLabelProp)
  {
    ContentPropsInferred(section.content);
    ElementsPropsInferred(ContentProps(section.content), section.elements.GetOr([]));
    CommonNotInferred();
  }

  lemma CommonNotInferred()
    ensures ClassNameProp !in InferredProps && AriaLabelProp !in InferredProps
  {
  }

  /**
   * The props map lists the inferred props, then `className`, then
   * `ariaLabel` exactly when accessibility is asked for, with no name twice.
   */
  lemma PropsInterfaceOrder(section: SectionData, accessibility: bool)
    ensures var r := PropsInterface(section, accessibility);
      Keys(r) == Keys(InferredPart(section)) + [ClassNameProp] + (if accessibility then [AriaLabelProp] else []) &&
      Collections.Distinct(Keys(r))
  {
    var inferred := InferredPart(section);
    InferredPartSpec(section);
    var m := Put(inferred, ClassNameProp, StringType);
    assert Keys(m) == Keys(inferred) + [ClassNameProp];
    assert PropsInterface(section, accessibility) == CommonProps(inferred, accessibility);
    if accessibility {
      HasPut(inferred, ClassNameProp, StringType, AriaLabelProp);
    }
  }

  lemma CommonPropsHas(m: seq<Entry>, accessibility: bool)
    requires !Has(m, ClassNameProp) && !Has(m, AriaLabelProp)
    ensures var r := CommonProps(m, accessibility);
      Lookup(r, ClassNameProp) == Some(StringType) &&
      (Has(r, AriaLabelProp) <==> accessibility) &&
      (Has(r, ImageUrlProp) <==> Has(m, ImageUrlProp)) &&
      (Has(r, ImageAltProp) <==> Has(m, ImageAltProp))
  {
    var m1 := Put(m, ClassNameProp, StringType);
    PutLookup(m, ClassNameProp, StringType, ClassNameProp);
    HasPut(m, ClassNameProp, StringType, AriaLabelProp);
    HasPut(m, ClassNameProp, StringType, ImageUrlProp);
    HasPut(m, ClassNameProp, StringType, ImageAltProp);
    if accessibility {
      PutLookup(m1, AriaLabelProp, StringType, ClassNameProp);
      HasPut(m1, AriaLabelProp, StringType, AriaLabelProp);
      HasPut(m1, AriaLabelProp, StringType, ImageUrlProp);
      HasPut(m1, AriaLabelProp, StringType, ImageAltProp);
    }
  }

  lemma CommonPropsTyped(m: seq<Entry>, accessibility: bool)
    requires Typed(m)
    ensures forall e :: e in CommonProps(m, accessibility) ==> e.value == PropType(e.key)
  {
    assert PropType(ClassNameProp) == StringType && PropType(AriaLabelProp) == StringType;
    var m1 := Put(m, ClassNameProp, StringType);
    assert forall e :: e in m1 ==> e.value == PropType(e.key);
  }

  /**
   * `className` is always a string prop; every prop has its type; an image
   * url always comes with its alt text; and `ariaLabel` is there exactly
   * when accessibility is asked for.
   */
  lemma PropsInterfaceSpec(section: SectionData, accessibility: bool)
    ensures var r := PropsInterface(section, accessibility);
      Lookup(r, ClassNameProp) == Some(StringType) &&
      (Has(r, AriaLabelProp) <==> accessibility) &&
      (forall e :: e in r ==> e.value == PropType(e.key)) &&
      (Has(r, ImageUrlProp) ==> Has(r, ImageAltProp))
  {
    InferredPartSpec(section);
    CommonPropsHas(InferredPart(section), accessibility);
    CommonPropsTyped(InferredPart(section), accessibility);
  }

  // ---------------------------------------------------------------------------
  // Props interface and types file

  /** Only `className` and `ariaLabel` are optional props. */
  predicate Optional(name: string)
  {
    name == ClassNameProp || name == AriaLabelProp
  }

  /** One prop's line of an interface, without its newline. */
  function PropText(p: Entry): string
  {
    "  " + p.key + (if Optional(p.key) then "?" else "") + ": " + p.value + ";"
  }

  /** The line of each prop, in map order. */
  function PropTexts(m: seq<Entry>): (r: seq<string>)
    ensures |r| == |m|
    ensures forall i :: 0 <= i < |m| ==> r[i] == PropText(m[i])
  {
    if m == [] then [] else [PropText(m[0])] + PropTexts(m[1..])
  }

  /** The lines of all props, each ended by a newline. */
  function PropLines(m: seq<Entry>): string
  {
    if m == [] then "" else PropText(m[0]) + "\n" + PropLines(m[1..])
  }

  /** `interface <name>Props {` and its lines, or nothing outside TypeScript. */
  function InterfaceString(name: string, m: seq<Entry>, typeScript: bool): string
  {
    if !typeScript then "" else InterfaceHeader(name) + "\n" + PropLines(m) + "}\n"
  }

  function InterfaceHeader(name: string): string
  {
    "interface " + name + "Props {"
  }

  function DefaultExport(name: string): string
  {
    "export default " + name + "Props;\n"
  }

  /** The types file: the exported interface and its default export, or nothing outside TypeScript. */
  function TypesFileText(name: string, m: seq<Entry>, typeScript: bool): string
  {
    if !typeScript then "" else "export " + InterfaceHeader(name) + "\n" + PropLines(m) + "}\n\n" + DefaultExport(name)
  }

  lemma {:induction false} PropLinesAppend(a: seq<Entry>, b: seq<Entry>)
    ensures PropLines(a + b) == PropLines(a) + PropLines(b)
    decreases |a|
  {
    if a == [] {
      assert a + b == b;
    } else {
      assert (a + b)[1..] == a[1..] + b;
      PropLinesAppend(a[1..], b);
      assert PropLines(a + b) == PropText(a[0]) + "\n" + (PropLines(a[1..]) + PropLines(b));
      assert PropLines(a) + PropLines(b) == PropText(a[0]) + "\n" + (PropLines(a[1..]) + PropLines(b));
    }
  }

  /** The prop lines of one more entry. */
  lemma PropLinesSnoc(m: seq<Entry>, i: nat)
    requires i < |m|
    ensures PropLines(m[..i + 1]) == PropLines(m[..i]) + PropText(m[i]) + "\n"
  {
    assert m[..i + 1] == m[..i] + [m[i]];
    PropLinesAppend(m[..i], [m[i]]);
    assert [m[i]][1..] == [];
  }

  /** Text with no line break in it. */
  predicate OneLine(s: string)
  {
    '\n' !in s
  }

  /** Each prop's line is the name, then `?` exactly for the optional props, then `:` and the type. */
  lemma PropTextSpec(p: Entry)
    ensures var t := PropText(p);
      t[..2 + |p.key|] == "  " + p.key &&
      (t[2 + |p.key|] == '?' <==> Optional(p.key))
  {
    var t := PropText(p);
    var opt := if Optional(p.key) then "?" else "";
    assert t == "  " + p.key + (opt + ": " + p.value + ";");
    assert t[2 + |p.key|] == (opt + ": ")[0];
  }

  /** A prop's line is a single line when its name and type are. */
  lemma PropTextOneLine(p: Entry)
    requires OneLine(p.key) && OneLine(p.value)
    ensures OneLine(PropText(p))
  {
    var t := PropText(p);
    var opt := if Optional(p.key) then "?" else "";
    assert forall c :: c in t ==> c in "  " || c in p.key || c in opt || c in ": " || c in p.value || c == ';';
  }

  /** A map whose names and types are single lines. */
  predicate OneLineEntries(m: seq<Entry>)
  {
    forall e :: e in m ==> OneLine(e.key) && OneLine(e.value)
  }

  /** The prop lines are the prop texts, each ended by a newline. */
  lemma {:induction false} PropLinesTerminated(m: seq<Entry>)
    ensures PropLines(m) == Text.Terminated(PropTexts(m), '\n')
    decreases |m|
  {
    if m != [] {
      PropLinesTerminated(m[1..]);
      assert PropTexts(m)[1..] == PropTexts(m[1..]);
    }
  }

  /** The prop lines split into one line per prop, in map order. */
  lemma PropLinesSplit(m: seq<Entry>, rest: string)
    requires OneLineEntries(m)
    ensures Text.Split(PropLines(m) + rest, {'\n'}) == PropTexts(m) + Text.Split(rest, {'\n'})
  {
    PropLinesTerminated(m);
    forall k | 0 <= k < |m|
      ensures '\n' !in PropTexts(m)[k]
    {
      assert m[k] in m;
      PropTextOneLine(m[k]);
    }
    Text.SplitTerminated(PropTexts(m), '\n', rest);
  }

  /**
   * In TypeScript the interface is its header line, one line per prop in
   * map order, and the closing brace, followed by a final newline; outside
   * TypeScript it is empty.
   */
  lemma InterfaceLines(name: string, m: seq<Entry>, typeScript: bool)
    requires OneLine(name) && OneLineEntries(m)
    ensures !typeScript ==> InterfaceString(name, m, typeScript) == ""
    ensures typeScript ==>
      Text.Split(InterfaceString(name, m, typeScript), {'\n'}) == [InterfaceHeader(name)] + PropTexts(m) + ["}", ""]
  {
    if typeScript {
      var h, body := InterfaceHeader(name), PropLines(m) + "}\n";
      HeaderOneLine(name);
      calc {
        Text.Split(InterfaceString(name, m, typeScript), {'\n'});
        { assert InterfaceString(name, m, typeScript) == h + ['\n'] + body; }
        Text.Split(h + ['\n'] + body, {'\n'});
        { Text.SplitAfter(h, '\n', body); }
        [h] + Text.Split(body, {'\n'});
        { PropLinesSplit(m, "}\n"); }
        [h] + (PropTexts(m) + Text.Split("}\n", {'\n'}));
        { ClosingSplit(); }
        [h] + PropTexts(m) + ["}", ""];
      }
    }
  }

  lemma HeaderOneLine(name: string)
    requires OneLine(name)
    ensures OneLine(InterfaceHeader(name))
  {
    var h := InterfaceHeader(name);
    assert forall c :: c in h ==> c in "interface " || c in name || c in "Props {";
  }

  lemma ClosingSplit()
    ensures Text.Split("}\n", {'\n'}) == ["}", ""]
  {
    Text.SplitAfter("}", '\n', "");
    assert "}\n" == "}" + ['\n'] + "";
  }

  /**
   * The types file is the interface, exported, then an empty line and the
   * default export; outside TypeScript both are empty.
   */
  lemma TypesFileExportsInterface(name: string, m: seq<Entry>, typeScript: bool)
    ensures TypesFileText(name, m, typeScript) ==
      if typeScript then "export " + InterfaceString(name, m, typeScript) + "\n" + DefaultExport(name) else ""
  {
  }

  // ---------------------------------------------------------------------------
  // Component body

  /** The JSX lines the body can hold, in the order they are written. */
  datatype JsxLine = Heading | Subheading | Picture | Paragraph | ActionButton | Anchor | Placeholder

  /** A line: six spaces of indentation, the element, a newline. */
  function LineText(l: JsxLine): string
  {
    Indent + Element(l) + "\n"
  }

  const Indent := "      "

  function Element(l: JsxLine): string
  {
    "<" + TagName(l) + Inner(l)
  }

  function TagName(l: JsxLine): (r: string)
    ensures |r| >= 1
  {
    match l
    case Heading => "h2"
    case Subheading => "h3"
    case Picture => "img"
    case Paragraph => "p"
    case ActionButton => "button"
    case Anchor => "a"
    case Placeholder => "div"
  }

  /** The element after its tag name. */
  function Inner(l: JsxLine): string
  {
    match l
    case Heading => ">{title}</h2>"
    case Subheading => ">{subtitle}</h3>"
    case Picture => " src={imageUrl} alt={imageAlt || \"\"} />"
    case Paragraph => ">{text}</p>"
    case ActionButton => " onClick={onClick || onButtonClick}>Click me</button>"
    case Anchor => " href={href || linkUrl}>Learn more</a>"
    case Placeholder => ">Component content goes here</div>"
  }

  /** The lines the props call for: one per recognised prop or pair of props. */
  function BodyLines(m: seq<Entry>): seq<JsxLine>
  {
    (if Has(m, TitleProp) then [Heading] else []) +
    (if Has(m, SubtitleProp) then [Subheading] else []) +
    (if Has(m, ImageUrlProp) then [Picture] else []) +
    (if Has(m, TextProp) then [Paragraph] else []) +
    (if Has(m, OnClickProp) || Has(m, OnButtonClickProp) then [ActionButton] else []) +
    (if Has(m, HrefProp) || Has(m, LinkUrlProp) then [Anchor] else [])
  }

  function Texts(ls: seq<JsxLine>): string
  {
    if ls == [] then "" else LineText(ls[0]) + Texts(ls[1..])
  }

  /** `generateComponentBody`: the lines, or the placeholder when they are blank. */
  function ComponentBody(m: seq<Entry>): string
  {
    BodyOf(BodyLines(m))
  }

  /** The text of the lines, or the placeholder when that text is blank. */
  function BodyOf(ls: seq<JsxLine>): string
  {
    var body := Texts(ls);
    if Text.Trim(body) == "" then LineText(Placeholder) else body
  }

  lemma Indented(e: string)
    requires |e| >= 2
    ensures var t := Indent + e + "\n"; |t| > 7 && t[6] == e[0] && t[7] == e[1]
  {
  }

  lemma TagInitial(l: JsxLine)
    ensures TagName(l)[0] == 'd' <==> l == Placeholder
  {
  }

  lemma ElementOpens(l: JsxLine)
    ensures var e := Element(l); |e| >= 2 && e[0] == '<' && e[1] == TagName(l)[0]
  {
  }

  /** Every line is indented by six spaces and opens a tag; only the placeholder's is a `div`. */
  lemma LineShape(l: JsxLine)
    ensures var t := LineText(l);
      |t| > 7 && t[6] == '<' && (t[7] == 'd' <==> l == Placeholder)
  {
    ElementOpens(l);
    Indented(Element(l));
    TagInitial(l);
  }

  lemma BodyOfSpec(ls: seq<JsxLine>)
    requires Placeholder !in ls
    ensures BodyOf(ls) == LineText(Placeholder) <==> ls == []
    ensures ls != [] ==> BodyOf(ls) == Texts(ls)
  {
    if ls != [] {
      var body := Texts(ls);
      var first := LineText(ls[0]);
      LineShape(ls[0]);
      LineShape(Placeholder);
      assert body == first + Texts(ls[1..]);
      assert body[6] == first[6] && body[7] == first[7];
      if Text.Trim(body) == "" {
        Text.TrimBlank(body);
        assert false;
      }
    }
  }

  /**
   * The body is the placeholder exactly when no recognised prop is present;
   * otherwise it is the recognised lines, in order.
   */
  lemma BodyPlaceholder(m: seq<Entry>)
    ensures ComponentBody(m) == LineText(Placeholder) <==> BodyLines(m) == []
    ensures BodyLines(m) != [] ==> ComponentBody(m) == Texts(BodyLines(m))
  {
    BodyOfSpec(BodyLines(m));
  }

  /** The button line is there exactly when either click handler is a prop. */
  lemma BodyButton(m: seq<Entry>)
    ensures ActionButton in BodyLines(m) <==> Has(m, OnClickProp) || Has(m, OnButtonClickProp)
  {
  }

  // ---------------------------------------------------------------------------
  // Style file and class names

  /** The style file's suffix for the styling framework. */
  function StyleSuffix(s: GeneratorSettings): string
  {
    if Is(s.styling, "css-modules") then ".module.css"
    else if Is(s.styling, "styled-components") then (if IsTypeScript(s) then ".styles.ts" else ".styles.js")
    else if Is(s.styling, "scss") then ".scss"
    else ".css"
  }

  /** `getStyleFileName`. */
  function StyleFileName(name: string, s: GeneratorSettings): string
  {
    name + StyleSuffix(s)
  }

  /** Different components never share a style file. */
  lemma StyleFileNameInjective(a: string, b: string, s: GeneratorSettings)
    requires StyleFileName(a, s) == StyleFileName(b, s)
    ensures a == b
  {
    assert a == StyleFileName(a, s)[..|a|];
    assert b == StyleFileName(b, s)[..|b|];
  }

  /** `generateTailwindClasses`: the first of header, hero, card, button, footer the name mentions. */
  function TailwindClasses(name: string): string
  {
    var t := Text.LowerStr(name);
    if Text.Contains(t, "header") then "w-full bg-white shadow-sm py-4 px-6"
    else if Text.Contains(t, "hero") then "w-full bg-gradient-to-r from-blue-500 to-purple-600 text-white py-20 px-6 text-center"
    else if Text.Contains(t, "card") then "bg-white rounded-lg shadow-md p-6 border border-gray-200"
    else if Text.Contains(t, "button") then "inline-flex items-center px-4 py-2 bg-blue-600 text-white rounded-md hover:bg-blue-700 transition-colors"
    else if Text.Contains(t, "footer") then "w-full bg-gray-800 text-white py-8 px-6"
    else "w-full p-4"
  }

  /** `generateClassName`: a CSS-modules member, or a quoted class list. */
  function ClassName(name: string, s: GeneratorSettings): string
  {
    if Is(s.styling, "css-modules") then "styles." + Text.LowerStr(name)
    else if Is(s.styling, "tailwind") then "\"" + TailwindClasses(name) + "\""
    else "\"" + Text.LowerStr(name) + "\""
  }

  /**
   * The class name ignores the case of the component name, is a `styles.`
   * member under CSS modules, and otherwise a quoted string.
   */
  lemma ClassNameSpec(a: string, b: string, s: GeneratorSettings)
    ensures Text.LowerStr(a) == Text.LowerStr(b) ==> ClassName(a, s) == ClassName(b, s)
    ensures var r := ClassName(a, s);
      if Is(s.styling, "css-modules") then Text.StartsWith(r, "styles.")
      else |r| >= 2 && r[0] == '"' && r[|r| - 1] == '"'
  {
    var r := ClassName(a, s);
    if Is(s.styling, "css-modules") {
      assert r[..7] == "styles.";
    }
  }

  // ---------------------------------------------------------------------------
  // Package dependencies

  /** The runtime packages of each framework, with the version ranges the generator pins. */
  function FrameworkPackages(framework: Option<Options.Setting>): seq<Entry>
  {
    if Is(framework, "react") then [Entry("react", "^18.0.0"), Entry("react-dom", "^18.0.0")]
    else if Is(framework, "vue") then [Entry("vue", "^3.0.0")]
    else if Is(framework, "angular") then [Entry("@angular/core", "^16.0.0"), Entry("@angular/common", "^16.0.0")]
    else if Is(framework, "svelte") then [Entry("svelte", "^4.0.0")]
    else []
  }

  /** The runtime packages of each styling framework. */
  function StylingPackages(styling: Option<Options.Setting>): seq<Entry>
  {
    if Is(styling, "styled-components") then [Entry("styled-components", "^6.0.0")]
    else if Is(styling, "emotion") then [Entry("@emotion/react", "^11.0.0"), Entry("@emotion/styled", "^11.0.0")]
    else if Is(styling, "tailwind") then [Entry("tailwindcss", "^3.0.0")]
    else []
  }

  const TypeScriptPackages: seq<Entry> := [Entry("typescript", "^5.0.0"), Entry("@types/react", "^18.0.0"), Entry("@types/react-dom", "^18.0.0")]
  const TestPackages: seq<Entry> := [Entry("jest", "^29.0.0"), Entry("@testing-library/react", "^13.0.0"), Entry("@testing-library/jest-dom", "^5.0.0")]
  const StorybookPackages: seq<Entry> := [Entry("@storybook/react", "^7.0.0"), Entry("@storybook/addon-essentials", "^7.0.0")]

  /** The development packages the settings call for. */
  function DevPackages(s: GeneratorSettings): seq<Entry>
  {
    (if IsTypeScript(s) then TypeScriptPackages else []) +
    (if s.includeTests then TestPackages else []) +
    (if s.includeStorybook then StorybookPackages else [])
  }

  /** `getPeerDependencies`. */
  const PeerDependencies: seq<Entry> := [Entry("react", ">=16.8.0"), Entry("react-dom", ">=16.8.0")]

  // ---------------------------------------------------------------------------
  // Main index

  /** The export line of one generated component. */
  function ExportLine(name: string): string
  {
    "export { default as " + name + " } from './components/" + name + "';"
  }

  function ExportLines(components: seq<GeneratedComponent>): (r: seq<string>)
    ensures |r| == |components|
    ensures forall i :: 0 <= i < |r| ==> r[i] == ExportLine(components[i].name)
  {
    if components == [] then [] else [ExportLine(components[0].name)] + ExportLines(components[1..])
  }

  /** `generateMainIndex`: the export lines joined by newlines, and a final newline. */
  function MainIndex(components: seq<GeneratedComponent>): string
  {
    Text.Join(ExportLines(components), "\n") + "\n"
  }

  lemma ExportLineOneLine(name: string)
    requires OneLine(name)
    ensures OneLine(ExportLine(name))
  {
    var t := ExportLine(name);
    assert forall c :: c in t ==> c in "export { default as " || c in name || c in " } from './components/" || c in "';";
  }

  /**
   * The main index holds exactly one export line per component, in the
   * order given, each ended by a newline (a lone newline for no
   * components).
   */
  lemma MainIndexLines(components: seq<GeneratedComponent>)
    requires forall c :: c in components ==> OneLine(c.name)
    ensures components == [] ==> MainIndex(components) == "\n"
    ensures components != [] ==> Text.Split(MainIndex(components), {'\n'}) == ExportLines(components) + [""]
  {
    if components != [] {
      var lines := ExportLines(components);
      forall k | 0 <= k < |lines|
        ensures '\n' !in lines[k]
      {
        assert components[k] in components;
        ExportLineOneLine(components[k].name);
      }
      Text.SplitJoinTerminated(lines, '\n');
    }
  }

  // ---------------------------------------------------------------------------
  // Generated files and the framework dispatch

  datatype FileKind = ComponentKind | StyleKind | IndexKind | TypesKind | StoryKind | TestKind

  datatype GeneratedFile = GeneratedFile(filename: string, content: string, kind: FileKind)

  datatype GeneratedComponent = GeneratedComponent(
    name: string,
    framework: Option<Options.Setting>,
    language: Option<Options.Setting>,
    styling: Option<Options.Setting>,
    files: seq<GeneratedFile>)

  /**
   * The code-file templates, which are not modelled: the content of the
   * component file, style sheet, story or test for a component name and its
   * props.
   */
  type Templates = (FileKind, string, seq<Entry>) -> string

  const UnsupportedFramework := "Unsupported framework"
  const VueNotImplemented := "Vue component generation not yet implemented"
  const AngularNotImplemented := "Angular component generation not yet implemented"
  const SvelteNotImplemented := "Svelte component generation not yet implemented"
  /** What reading the undeclared `_isTypeScript` throws. */
  const IsTypeScriptUndeclared := "_isTypeScript is not defined"

  /** `generateIndexFile`. */
  function IndexContent(name: string): string
  {
    "export { default } from './" + name + "';\nexport * from './" + name + "';\n"
  }

  /**
   * The files `generateReactComponent` evidently means to return: component,
   * style and index files, then the types file in TypeScript, the story and
   * the test when asked for.
   */
  function ReactFiles(name: string, m: seq<Entry>, s: GeneratorSettings, templates: Templates): seq<GeneratedFile>
  {
    var ts := IsTypeScript(s);
    var ext := if ts then "tsx" else "jsx";
    Layout(ts, s.includeStorybook, s.includeTests,
      GeneratedFile(name + "." + ext, templates(ComponentKind, name, m), ComponentKind),
      GeneratedFile(StyleFileName(name, s), templates(StyleKind, name, m), StyleKind),
      GeneratedFile(if ts then "index.ts" else "index.js", IndexContent(name), IndexKind),
      GeneratedFile("types.ts", TypesFileText(name, m, ts), TypesKind),
      GeneratedFile(name + ".stories." + ext, templates(StoryKind, name, m), StoryKind),
      GeneratedFile(name + ".test." + ext, templates(TestKind, name, m), TestKind))
  }

  /** The files in the order they are pushed, the last three only when called for. */
  function Layout(ts: bool, storybook: bool, tests: bool,
                  component: GeneratedFile, style: GeneratedFile, index: GeneratedFile,
                  types: GeneratedFile, story: GeneratedFile, test: GeneratedFile): seq<GeneratedFile>
  {
    [component, style, index] + (if ts then [types] else []) + (if storybook then [story] else []) + (if tests then [test] else [])
  }

  /**
   * `generateReactComponent` as written: building the index file reads the
   * undeclared `_isTypeScript`, which throws before any file is returned.
   */
  function ReactFilesAsWritten(name: string, m: seq<Entry>, s: GeneratorSettings, templates: Templates): Result<seq<GeneratedFile>>
  {
    Err(IsTypeScriptUndeclared)
  }

  /** The `switch` on the framework, given what the React generator produces. */
  function Dispatch(s: GeneratorSettings, name: string, react: Result<seq<GeneratedFile>>): Result<GeneratedComponent>
  {
    if Is(s.framework, "react") then
      match react
      case Err(e) => Err(e)
      case Ok(files) => Ok(GeneratedComponent(name, s.framework, s.outputFormat, s.styling, files))
    else if Is(s.framework, "vue") then Err(VueNotImplemented)
    else if Is(s.framework, "angular") then Err(AngularNotImplemented)
    else if Is(s.framework, "svelte") then Err(SvelteNotImplemented)
    else Err(UnsupportedFramework)
  }

  /** `generateComponent` as written. */
  function GenerateComponentAsWritten(s: GeneratorSettings, section: SectionData, templates: Templates): Result<GeneratedComponent>
  {
    var name := ComponentName(s.naming, section.kind);
    Dispatch(s, name, ReactFilesAsWritten(name, PropsInterface(section, s.includeAccessibility), s, templates))
  }

  /** `generateComponent` with the React generator reading the `isTypeScript` it declared. */
  function GenerateComponentResult(s: GeneratorSettings, section: SectionData, templates: Templates): Result<GeneratedComponent>
  {
    var name := ComponentName(s.naming, section.kind);
    Dispatch(s, name, Ok(ReactFiles(name, PropsInterface(section, s.includeAccessibility), s, templates)))
  }

  /** As written, no setting and no section yields a component: every path throws. */
  lemma GenerateComponentAsWrittenFails(s: GeneratorSettings, section: SectionData, templates: Templates)
    ensures GenerateComponentAsWritten(s, section, templates).Err?
    ensures Is(s.framework, "react") ==> GenerateComponentAsWritten(s, section, templates).error == IsTypeScriptUndeclared
  {
  }

  /**
   * Only React generates a component; Vue, Angular and Svelte fail as not
   * yet implemented, and any other framework as unsupported. A generated
   * component carries its name and the settings it was made with.
   */
  lemma GenerateComponentSpec(s: GeneratorSettings, section: SectionData, templates: Templates)
    ensures var r := GenerateComponentResult(s, section, templates);
      (r.Ok? <==> Is(s.framework, "react")) &&
      (Is(s.framework, "vue") ==> r == Err(VueNotImplemented)) &&
      (Is(s.framework, "angular") ==> r == Err(AngularNotImplemented)) &&
      (Is(s.framework, "svelte") ==> r == Err(SvelteNotImplemented)) &&
      (!Is(s.framework, "react") && !Is(s.framework, "vue") && !Is(s.framework, "angular") && !Is(s.framework, "svelte") ==>
        r == Err(UnsupportedFramework)) &&
      (r.Ok? ==>
        r.value.name == ComponentName(s.naming, section.kind) && r.value.framework == s.framework &&
        r.value.language == s.outputFormat && r.value.styling == s.styling)
  {
  }

  function Kinds(files: seq<GeneratedFile>): (r: seq<FileKind>)
    ensures |r| == |files|
    ensures forall i :: 0 <= i < |files| ==> r[i] == files[i].kind
  {
    if files == [] then [] else [files[0].kind] + Kinds(files[1..])
  }

  /**
   * The React files come in a fixed order: component, style, index, then
   * types only in TypeScript, story only with Storybook, test only with
   * tests; the component file takes the language's extension, and the
   * types file holds the exported props interface.
   */
  lemma LayoutKinds(ts: bool, storybook: bool, tests: bool,
                    component: GeneratedFile, style: GeneratedFile, index: GeneratedFile,
                    types: GeneratedFile, story: GeneratedFile, test: GeneratedFile)
    ensures var files := Layout(ts, storybook, tests, component, style, index, types, story, test);
      Kinds(files) ==
        [component.kind, style.kind, index.kind] +
        (if ts then [types.kind] else []) + (if storybook then [story.kind] else []) + (if tests then [test.kind] else []) &&
      files[..3] == [component, style, index] &&
      (ts ==> files[3] == types)
  {
    var files := Layout(ts, storybook, tests, component, style, index, types, story, test);
    var ks := [component.kind, style.kind, index.kind] +
      (if ts then [types.kind] else []) + (if storybook then [story.kind] else []) + (if tests then [test.kind] else []);
    assert |files| == |ks|;
    assert forall i :: 0 <= i < |ks| ==> files[i].kind == ks[i];
  }

  lemma ReactFilesSpec(name: string, m: seq<Entry>, s: GeneratorSettings, templates: Templates)
    ensures var files := ReactFiles(name, m, s, templates);
      Kinds(files) ==
        [ComponentKind, StyleKind, IndexKind] +
        (if IsTypeScript(s) then [TypesKind] else []) +
        (if s.includeStorybook then [StoryKind] else []) +
        (if s.includeTests then [TestKind] else []) &&
      files[0].filename == name + (if IsTypeScript(s) then ".tsx" else ".jsx") &&
      files[1].filename == StyleFileName(name, s) &&
      (IsTypeScript(s) ==> files[3] == GeneratedFile("types.ts", TypesFileText(name, m, true), TypesKind))
  {
    var ts := IsTypeScript(s);
    var ext := if ts then "tsx" else "jsx";
    LayoutKinds(ts, s.includeStorybook, s.includeTests,
      GeneratedFile(name + "." + ext, templates(ComponentKind, name, m), ComponentKind),
      GeneratedFile(StyleFileName(name, s), templates(StyleKind, name, m), StyleKind),
      GeneratedFile(if ts then "index.ts" else "index.js", IndexContent(name), IndexKind),
      GeneratedFile("types.ts", TypesFileText(name, m, ts), TypesKind),
      GeneratedFile(name + ".stories." + ext, templates(StoryKind, name, m), StoryKind),
      GeneratedFile(name + ".test." + ext, templates(TestKind, name, m), TestKind));
    assert name + "." + ext == name + (if ts then ".tsx" else ".jsx");
  }

  /** No styling package shares its name with a framework package. */
  lemma StylingKeysFresh(framework: Option<Options.Setting>)
    ensures !Has(FrameworkPackages(framework), "styled-components")
    ensures !Has(FrameworkPackages(framework), "@emotion/react")
    ensures !Has(FrameworkPackages(framework) + [Entry("@emotion/react", "^11.0.0")], "@emotion/styled")
    ensures !Has(FrameworkPackages(framework), "tailwindcss")
  {
    var f := FrameworkPackages(framework);
    assert Keys(f + [Entry("@emotion/react", "^11.0.0")]) == Keys(f) + ["@emotion/react"];
  }

  /** A key outside both halves of a map is outside the whole. */
  lemma HasConcat(a: seq<Entry>, b: seq<Entry>, k: string)
    ensures Has(a + b, k) <==> Has(a, k) || Has(b, k)
  {
    assert Keys(a + b) == Keys(a) + Keys(b);
  }

  /** No test package shares its name with a TypeScript package. */
  lemma TestKeysFresh(before: seq<Entry>)
    requires before == [] || before == TypeScriptPackages
    ensures !Has(before, "jest")
    ensures !Has(before + [Entry("jest", "^29.0.0")], "@testing-library/react")
    ensures !Has(before + [Entry("jest", "^29.0.0"), Entry("@testing-library/react", "^13.0.0")], "@testing-library/jest-dom")
  {
    HasConcat(before, [Entry("jest", "^29.0.0")], "@testing-library/react");
    HasConcat(before, [Entry("jest", "^29.0.0"), Entry("@testing-library/react", "^13.0.0")], "@testing-library/jest-dom");
  }

  /** No Storybook package shares its name with a TypeScript or test package. */
  lemma StorybookKeysFresh(ts: seq<Entry>, tests: seq<Entry>)
    requires ts == [] || ts == TypeScriptPackages
    requires tests == [] || tests == TestPackages
    ensures !Has(ts + tests, "@storybook/react")
    ensures !Has(ts + tests + [Entry("@storybook/react", "^7.0.0")], "@storybook/addon-essentials")
  {
    HasConcat(ts, tests, "@storybook/react");
    HasConcat(ts, tests, "@storybook/addon-essentials");
    HasConcat(ts + tests, [Entry("@storybook/react", "^7.0.0")], "@storybook/addon-essentials");
  }

  /** The TypeScript group of `getDevDependencies`. */
  method PutTypeScriptPackages(before: seq<Entry>) returns (deps: seq<Entry>)
    requires before == []
    ensures deps == TypeScriptPackages
  {
    deps := Put(before, "typescript", "^5.0.0");
    deps := Put(deps, "@types/react", "^18.0.0");
    deps := Put(deps, "@types/react-dom", "^18.0.0");
  }

  /** The test group, after packages that do not share its names. */
  method PutTestPackages(before: seq<Entry>) returns (deps: seq<Entry>)
    requires !Has(before, "jest")
    requires !Has(before + [Entry("jest", "^29.0.0")], "@testing-library/react")
    requires !Has(before + [Entry("jest", "^29.0.0"), Entry("@testing-library/react", "^13.0.0")], "@testing-library/jest-dom")
    ensures deps == before + TestPackages
  {
    deps := Put(before, "jest", "^29.0.0");
    deps := Put(deps, "@testing-library/react", "^13.0.0");
    assert deps == before + [Entry("jest", "^29.0.0"), Entry("@testing-library/react", "^13.0.0")];
    deps := Put(deps, "@testing-library/jest-dom", "^5.0.0");
  }

  /** The Storybook group, after packages that do not share its names. */
  method PutStorybookPackages(before: seq<Entry>) returns (deps: seq<Entry>)
    requires !Has(before, "@storybook/react")
    requires !Has(before + [Entry("@storybook/react", "^7.0.0")], "@storybook/addon-essentials")
    ensures deps == before + StorybookPackages
  {
    deps := Put(before, "@storybook/react", "^7.0.0");
    deps := Put(deps, "@storybook/addon-essentials", "^7.0.0");
  }

  /** The first half of `getFrameworkDependencies`: the framework's packages, into an empty map. */
  method PutFrameworkPackages(framework: Option<Options.Setting>) returns (deps: seq<Entry>)
    ensures deps == FrameworkPackages(framework)
  {
    deps := [];
    if Is(framework, "react") {
      deps := Put(deps, "react", "^18.0.0");
      deps := Put(deps, "react-dom", "^18.0.0");
    } else if Is(framework, "vue") {
      deps := Put(deps, "vue", "^3.0.0");
    } else if Is(framework, "angular") {
      deps := Put(deps, "@angular/core", "^16.0.0");
      deps := Put(deps, "@angular/common", "^16.0.0");
    } else if Is(framework, "svelte") {
      deps := Put(deps, "svelte", "^4.0.0");
    }
  }

  /** The second half: the styling framework's packages, added after the framework's. */
  method PutStylingPackages(frameworkDeps: seq<Entry>, framework: Option<Options.Setting>, styling: Option<Options.Setting>)
    returns (deps: seq<Entry>)
    requires frameworkDeps == FrameworkPackages(framework)
    ensures deps == frameworkDeps + StylingPackages(styling)
  {
    StylingKeysFresh(framework);
    deps := frameworkDeps;
    if Is(styling, "styled-components") {
      deps := Put(deps, "styled-components", "^6.0.0");
    } else if Is(styling, "emotion") {
      deps := Put(deps, "@emotion/react", "^11.0.0");
      assert deps == frameworkDeps + [Entry("@emotion/react", "^11.0.0")];
      deps := Put(deps, "@emotion/styled", "^11.0.0");
      assert deps == frameworkDeps + [Entry("@emotion/react", "^11.0.0")] + [Entry("@emotion/styled", "^11.0.0")];
    } else if Is(styling, "tailwind") {
      deps := Put(deps, "tailwindcss", "^3.0.0");
    } else {
      assert deps == frameworkDeps + [];
    }
  }

  // ---------------------------------------------------------------------------
  // The generator

  class ComponentGenerator {
    /** The settings `init` read; None before the first call. */
    var settings: Option<GeneratorSettings>

    constructor()
      ensures settings == None
    {
      settings := None;
    }

    /** `init`: read the generator's settings from sync storage. */
    method Init(stored: map<string, Options.Setting>)
      modifies this
      ensures settings == Some(SettingsOf(stored))
    {
      settings := Some(SettingsOf(stored));
    }

    /** `generatePropsInterface`: the map filled from the content, each element, and the common props. */
    method GeneratePropsInterface(section: SectionData) returns (props: seq<Entry>)
      requires settings.Some?
      ensures props == PropsInterface(section, settings.value.includeAccessibility)
    {
      props := ContentProps(section.content);
      if section.elements.Some? {
        var elements := section.elements.value;
        for i := 0 to |elements|
          invariant props == ElementsProps(ContentProps(section.content), elements[..i])
        {
          assert elements[..i + 1][..i] == elements[..i];
          props := ElementProps(props, elements[i]);
        }
        assert elements[..|elements|] == elements;
      }
      props := Put(props, ClassNameProp, StringType);
      if settings.value.includeAccessibility {
        props := Put(props, AriaLabelProp, StringType);
      }
    }

    /** `generatePropsInterfaceString`: one line per prop, in map order, inside the interface. */
    method GeneratePropsInterfaceString(name: string, props: seq<Entry>) returns (text: string)
      requires settings.Some?
      ensures text == InterfaceString(name, props, IsTypeScript(settings.value))
    {
      if !IsTypeScript(settings.value) {
        return "";
      }
      text := InterfaceHeader(name) + "\n";
      for i := 0 to |props|
        invariant text == InterfaceHeader(name) + "\n" + PropLines(props[..i])
      {
        PropLinesSnoc(props, i);
        text := text + PropText(props[i]) + "\n";
      }
      assert props[..|props|] == props;
      text := text + "}\n";
    }

    /** `generateTypesFile`: the exported interface and its default export. */
    method GenerateTypesFile(name: string, props: seq<Entry>) returns (text: string)
      requires settings.Some?
      ensures text == TypesFileText(name, props, IsTypeScript(settings.value))
    {
      if !IsTypeScript(settings.value) {
        return "";
      }
      text := "export " + InterfaceHeader(name) + "\n";
      for i := 0 to |props|
        invariant text == "export " + InterfaceHeader(name) + "\n" + PropLines(props[..i])
      {
        PropLinesSnoc(props, i);
        text := text + PropText(props[i]) + "\n";
      }
      assert props[..|props|] == props;
      text := text + "}\n\n";
      text := text + DefaultExport(name);
    }

    /** `getFrameworkDependencies`: the framework's packages, then the styling framework's. */
    method GetFrameworkDependencies() returns (deps: seq<Entry>)
      requires settings.Some?
      ensures deps == FrameworkPackages(settings.value.framework) + StylingPackages(settings.value.styling)
    {
      var s := settings.value;
      deps := PutFrameworkPackages(s.framework);
      deps := PutStylingPackages(deps, s.framework, s.styling);
    }

    /** `getDevDependencies`: TypeScript, test and Storybook packages, each group when called for. */
    method GetDevDependencies() returns (deps: seq<Entry>)
      requires settings.Some?
      ensures deps == DevPackages(settings.value)
    {
      var s := settings.value;
      deps := [];
      if IsTypeScript(s) {
        deps := PutTypeScriptPackages(deps);
      }
      ghost var ts := deps;
      if s.includeTests {
        TestKeysFresh(deps);
        deps := PutTestPackages(deps);
      }
      if s.includeStorybook {
        StorybookKeysFresh(ts, if s.includeTests then TestPackages else []);
        deps := PutStorybookPackages(deps);
      }
    }

    /**
     * `generateComponent`: read the settings again, name the component,
     * infer its props and dispatch on the framework. The React generator
     * throws on the undeclared `_isTypeScript`, so no call succeeds.
     */
    method GenerateComponent(stored: map<string, Options.Setting>, section: SectionData, templates: Templates)
      returns (r: Result<GeneratedComponent>)
      modifies this
      ensures settings == Some(SettingsOf(stored))
      ensures r == GenerateComponentAsWritten(SettingsOf(stored), section, templates)
      ensures r.Err?
    {
      Init(stored);
      var s := settings.value;
      var name := ComponentName(s.naming, section.kind);
      var props := GeneratePropsInterface(section);
      r := Dispatch(s, name, ReactFilesAsWritten(name, props, s, templates));
      GenerateComponentAsWrittenFails(s, section, templates);
    }
  }
}
