/**
 * `identifyComponentType`: the ordered rule list that names the component a
 * section belongs to. The first rule that holds wins; class tests are
 * substring tests on the raw `class` attribute.
 */
module ComponentType {
  import Text
  import opened BackgroundTypes

  /** The component names of the rule list, in the order the rules are tried. */
  const RuleNames: seq<string> :=
    ["Header", "Navigation", "Footer", "Card", "Button", "Form", "Hero", "Sidebar", "MainContent"]

  const GenericName: string := "GenericComponent"

  /** Rule `k` of the list, stated on the lower-cased tag name, the class attribute and the section type. */
  predicate RuleHolds(k: nat, tag: string, classes: string, kind: string)
  {
    match k
    case 0 => tag == "header" || Text.Contains(classes, "header") || kind == "header"
    case 1 => tag == "nav" || Text.Contains(classes, "nav") || kind == "navigation"
    case 2 => tag == "footer" || Text.Contains(classes, "footer") || kind == "footer"
    case 3 => Text.Contains(classes, "card") || Text.Contains(classes, "item")
    case 4 => tag == "button" || Text.Contains(classes, "btn")
    case 5 => tag == "form" || Text.Contains(classes, "form")
    case 6 => Text.Contains(classes, "hero") || Text.Contains(classes, "banner")
    case 7 => tag == "aside" || Text.Contains(classes, "sidebar")
    case 8 => tag == "main" || Text.Contains(classes, "main") || kind == "main"
    case _ => false
  }

  /**
   * The index of the first rule, from `k` on, that holds; `|RuleNames|` when
   * none does.
   */
  function FirstRule(k: nat, tag: string, classes: string, kind: string): (r: nat)
    requires k <= |RuleNames|
    ensures k <= r <= |RuleNames|
    ensures r < |RuleNames| ==> RuleHolds(r, tag, classes, kind)
    ensures forall j :: k <= j < r ==> !RuleHolds(j, tag, classes, kind)
    decreases |RuleNames| - k
  {
    if k == |RuleNames| then k
    else if RuleHolds(k, tag, classes, kind) then k
    else FirstRule(k + 1, tag, classes, kind)
  }

  function TypeNameOf(tag: string, classes: string, kind: string): string
  {
    if tag == "header" || Text.Contains(classes, "header") || kind == "header" then "Header"
    else if tag == "nav" || Text.Contains(classes, "nav") || kind == "navigation" then "Navigation"
    else if tag == "footer" || Text.Contains(classes, "footer") || kind == "footer" then "Footer"
    else if Text.Contains(classes, "card") || Text.Contains(classes, "item") then "Card"
    else if tag == "button" || Text.Contains(classes, "btn") then "Button"
    else if tag == "form" || Text.Contains(classes, "form") then "Form"
    else if Text.Contains(classes, "hero") || Text.Contains(classes, "banner") then "Hero"
    else if tag == "aside" || Text.Contains(classes, "sidebar") then "Sidebar"
    else if tag == "main" || Text.Contains(classes, "main") || kind == "main" then "MainContent"
    else GenericName
  }

  /** `identifyComponentType(section)`. */
  function IdentifyComponentType(s: RawSection): string
  {
    TypeNameOf(Text.LowerStr(s.tagName), ClassAttr(s), s.kind)
  }

  /**
   * The classification is the name of the first rule in the list that holds,
   * and the generic name when none holds.
   */
  lemma IdentifyFirstMatch(s: RawSection)
    ensures var r := FirstRule(0, Text.LowerStr(s.tagName), ClassAttr(s), s.kind);
      IdentifyComponentType(s) == if r < |RuleNames| then RuleNames[r] else GenericName
  {
    var tag, cls, kind := Text.LowerStr(s.tagName), ClassAttr(s), s.kind;
    var r := FirstRule(0, tag, cls, kind);
    assert r == 0 || !RuleHolds(0, tag, cls, kind);
    assert r <= 1 || !RuleHolds(1, tag, cls, kind);
    assert r <= 2 || !RuleHolds(2, tag, cls, kind);
    assert r <= 3 || !RuleHolds(3, tag, cls, kind);
    assert r <= 4 || !RuleHolds(4, tag, cls, kind);
    assert r <= 5 || !RuleHolds(5, tag, cls, kind);
    assert r <= 6 || !RuleHolds(6, tag, cls, kind);
    assert r <= 7 || !RuleHolds(7, tag, cls, kind);
    assert r <= 8 || !RuleHolds(8, tag, cls, kind);
  }

  /** The classification is one of the rule names or the generic name. */
  lemma IdentifyTotal(s: RawSection)
    ensures IdentifyComponentType(s) in RuleNames + [GenericName]
  {
  }

  /** A class "navbar" on a plain `div` is a navigation bar: "nav" is a substring test. */
  lemma NavbarIsNavigation(s: RawSection)
    requires s.kind == "" && s.tagName == "div" && ClassAttr(s) == "navbar"
    ensures IdentifyComponentType(s) == "Navigation"
  {
    Text.ContainsAt("navbar", "nav", 0);
    forall i: nat ensures !Text.OccursAt("navbar", "header", i) {
      if i == 0 {
        assert "navbar"[0..6][0] == 'n';
      }
    }
    Text.NotContains("navbar", "header");
    assert Text.LowerStr("div") == "div";
  }

  /** A class "item" on a plain `div` is a card. */
  lemma ItemIsCard(s: RawSection)
    requires s.kind == "" && s.tagName == "div" && ClassAttr(s) == "item"
    ensures IdentifyComponentType(s) == "Card"
  {
    Text.ContainsAt("item", "item", 0);
    forall i: nat ensures !Text.OccursAt("item", "nav", i) {
      if i + 3 <= 4 {
        assert "item"[i..i + 3][0] == "item"[i] != 'n';
      }
    }
    Text.NotContains("item", "nav");
    Text.NotContains("item", "header");
    Text.NotContains("item", "footer");
    assert Text.LowerStr("div") == "div";
  }
}
