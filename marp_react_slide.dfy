// The slide component of the video (src/components/MarpReactSlide.tsx): the style rules
// it emits for the current frame, revealing list items as their step frames pass and
// the highlight once its frame passes, and the HTML it shows.

module MarpReactSlide {
  import opened Common
  import opened Text

  const ShowRule := " { opacity: 1 !important; " + "transform: none !important; }"
  const HighlightRule := ".highlight-text::after { width: 100% !important; }"

  function ItemId(k: nat): string
  {
    "item-" + NatToString(k)
  }

  /** The rule revealing the elements of item `k`: `[id^="item-k"] { ... }`. */
  function ItemRule(k: nat): string
  {
    "[id^=\"" + ItemId(k) + "\"]" + ShowRule
  }

  lemma ShowRuleOneLine()
    ensures '\n' !in ShowRule
  {
    assert '\n' !in " { opacity: 1 !important; ";
    assert '\n' !in "transform: none !important; }";
  }

  /** The item number can be read back from its rule, and a rule is one line. */
  lemma ItemRuleParts(k: nat)
    ensures var r := ItemRule(k);
      |r| == 13 + |NatToString(k)| + |ShowRule| &&
      r[11..|r| - |ShowRule| - 2] == NatToString(k) &&
      '\n' !in r
  {
    var r := ItemRule(k);
    assert r == "[id^=\"item-" + NatToString(k) + "\"]" + ShowRule;
    assert r[11..|r| - |ShowRule| - 2] == NatToString(k);
    assert '\n' !in NatToString(k);
    ShowRuleOneLine();
    assert '\n' !in "[id^=\"item-";
    assert '\n' !in "\"]";
  }

  /** Distinct items have distinct rules. */
  lemma ItemRuleInjective(j: nat, k: nat)
    ensures ItemRule(j) == ItemRule(k) <==> j == k
  {
    if ItemRule(j) == ItemRule(k) {
      ItemRuleParts(j);
      ItemRuleParts(k);
      NatToStringInjective(j, k);
    }
  }

  // ----- Item rules -----

  /** One rule per step: item `k + 1`'s rule once `frame` has reached `steps[k]`,
      the empty string before. */
  function ItemRules(steps: seq<int>, frame: int): (rules: seq<string>)
    ensures |rules| == |steps|
    ensures forall k :: 0 <= k < |steps| ==> (rules[k] != "" <==> frame >= steps[k])
    ensures forall k :: 0 <= k < |steps| && rules[k] != "" ==> rules[k] == ItemRule(k + 1)
  {
    seq(|steps|, k requires 0 <= k < |steps| => if frame >= steps[k] then ItemRule(k + 1) else "")
  }

  /** Item `j` is revealed exactly when it has a step and `frame` has reached it. */
  lemma ItemRevealed(steps: seq<int>, frame: int, j: nat)
    ensures ItemRule(j) in ItemRules(steps, frame) <==> 1 <= j <= |steps| && frame >= steps[j - 1]
  {
    var rules := ItemRules(steps, frame);
    if ItemRule(j) in rules {
      var k :| 0 <= k < |rules| && rules[k] == ItemRule(j);
      ItemRuleParts(j);
      ItemRuleInjective(j, k + 1);
    }
    if 1 <= j <= |steps| && frame >= steps[j - 1] {
      assert rules[j - 1] == ItemRule(j);
    }
  }

  /** A revealed item stays revealed on every later frame. */
  lemma RevealIsMonotone(steps: seq<int>, frame: int, later: int, k: nat)
    requires frame <= later && k < |steps|
    requires ItemRules(steps, frame)[k] != ""
    ensures ItemRules(steps, later)[k] == ItemRules(steps, frame)[k]
  {
  }

  /** `dynamicStyles`: the item rules joined with newlines. */
  function DynamicStyles(steps: seq<int>, frame: int): string
  {
    Join(ItemRules(steps, frame), "\n")
  }

  /** Read back line by line, the item styles are the item rules in item order. */
  lemma DynamicStylesLines(steps: seq<int>, frame: int)
    requires |steps| > 0
    ensures Split(DynamicStyles(steps, frame), '\n') == ItemRules(steps, frame)
  {
    var rules := ItemRules(steps, frame);
    forall k | 0 <= k < |rules| ensures '\n' !in rules[k] {
      ItemRuleParts(k + 1);
    }
    SplitJoin(rules, '\n');
  }

  // ----- The highlight -----

  /** The highlight rule, once `frame` reaches `highlightStep`; `None` stands for the
      default, `Infinity`, which no frame reaches. */
  function HighlightStyle(frame: int, highlightStep: Option<int>): (style: string)
    ensures style != "" <==> highlightStep.Some? && frame >= highlightStep.value
    ensures style != "" ==> style == HighlightRule
  {
    if highlightStep.Some? && frame >= highlightStep.value then HighlightRule else ""
  }

  // ----- The component -----

  /** The component's props; `None` is a prop the caller leaves out. */
  datatype Props = Props(
    htmlContent: Option<string>,
    customCss: Option<string>,
    steps: Option<seq<int>>,
    highlightStep: Option<int>)

  /** What the component renders: the custom style element if any, the dynamic style
      and the slide's HTML. */
  datatype Rendered = Rendered(customStyle: Option<string>, dynamicStyle: string, html: string)

  /** The steps the component works with: `[]` when the prop is left out. */
  function StepsOf(props: Props): seq<int>
  {
    if props.steps.Some? then props.steps.value else []
  }

  function Render(props: Props, frame: int): Rendered
  {
    Rendered(
      if props.customCss.Some? && props.customCss.value != "" then props.customCss else None,
      DynamicStyles(StepsOf(props), frame) + HighlightStyle(frame, props.highlightStep),
      if props.htmlContent.Some? then props.htmlContent.value else "")
  }

  /** The rendered style is the item rules followed by the highlight rule; while the
      highlight is off it reads back as the item rules line by line. The HTML is the
      content prop or `''`, and an empty custom style is not rendered. */
  lemma RenderFacts(props: Props, frame: int)
    ensures var r := Render(props, frame);
      var items := DynamicStyles(StepsOf(props), frame);
      StartsWith(r.dynamicStyle, items) &&
      (r.dynamicStyle == items <==> !(props.highlightStep.Some? && frame >= props.highlightStep.value)) &&
      (r.dynamicStyle != items ==> r.dynamicStyle == items + HighlightRule) &&
      (r.dynamicStyle == items && |StepsOf(props)| > 0 ==> Split(r.dynamicStyle, '\n') == ItemRules(StepsOf(props), frame)) &&
      (props.htmlContent == None ==> r.html == "") &&
      (r.customStyle.Some? <==> props.customCss.Some? && props.customCss.value != "")
  {
    var items := DynamicStyles(StepsOf(props), frame);
    var r := Render(props, frame);
    assert r.dynamicStyle[..|items|] == items;
    if |StepsOf(props)| > 0 {
      DynamicStylesLines(StepsOf(props), frame);
    }
  }

  /** With the default props nothing is revealed and nothing highlighted. */
  lemma DefaultsRenderNoStyle(htmlContent: Option<string>, customCss: Option<string>, frame: int)
    ensures Render(Props(htmlContent, customCss, None, None), frame).dynamicStyle == ""
  {
  }

  // ----- Which elements a rule selects -----

  /** `[id^="item-k"]` selects every element whose id starts with `item-k`. */
  predicate RuleSelects(k: nat, id: string)
  {
    StartsWith(id, ItemId(k))
  }

  /** With ten items, item 1's rule also selects item 10, so item 10 shows from the
      first step on instead of from its own. */
  lemma ItemOneRuleRevealsItemTen()
    ensures var steps := [0, 100, 200, 300, 400, 500, 600, 700, 800, 900];
      ItemRules(steps, 0)[0] == ItemRule(1) && RuleSelects(1, ItemId(10)) &&
      ItemRules(steps, 0)[9] == ""
  {
    assert NatToString(10) == NatToString(1) + [DigitChar(0)];
    assert ItemId(10) == ItemId(1) + "0";
  }

  /** The selection the rule is meant to make: item `k` itself and its parts
      `item-k_…` (such as `item-1_L`), and nothing else. */
  predicate RuleSelectsExactly(k: nat, id: string)
  {
    id == ItemId(k) || StartsWith(id, ItemId(k) + "_")
  }

  /** The digits of an item id end where the id does or at the next '_'. */
  lemma ItemIdPrefix(j: nat, k: nat, rest: string)
    requires rest == [] || rest[0] == '_'
    requires RuleSelectsExactly(k, ItemId(j) + rest)
    ensures j == k
  {
    var dj := NatToString(j);
    var dk := NatToString(k);
    var id := ItemId(j) + rest;
    assert forall m :: 5 <= m < 5 + |dj| ==> id[m] == dj[m - 5];
    assert 5 + |dj| < |id| ==> id[5 + |dj|] == '_';
    assert |dk| <= |id| - 5 && forall m :: 5 <= m < 5 + |dk| ==> id[m] == dk[m - 5];
    assert 5 + |dk| < |id| ==> id[5 + |dk|] == '_' by {
      if id != ItemId(k) {
        assert id[..|ItemId(k) + "_"|] == ItemId(k) + "_";
        assert id[5 + |dk|] == (ItemId(k) + "_")[5 + |dk|];
      }
    }
    assert |dj| == |dk|;
    assert id[5..5 + |dj|] == dj;
    assert id[5..5 + |dk|] == dk;
    NatToStringInjective(j, k);
  }

  /** Read with the intended selection, item `j` and each of its parts show exactly
      when `frame` has reached item `j`'s own step. */
  lemma ExactRuleRevealsOwnItem(steps: seq<int>, frame: int, j: nat, rest: string)
    requires rest == [] || rest[0] == '_'
    ensures (exists k :: 0 <= k < |steps| && ItemRules(steps, frame)[k] != "" && RuleSelectsExactly(k + 1, ItemId(j) + rest))
      <==> 1 <= j <= |steps| && frame >= steps[j - 1]
  {
    var id := ItemId(j) + rest;
    if 1 <= j <= |steps| && frame >= steps[j - 1] {
      if rest == [] {
        assert id == ItemId(j);
      } else {
        assert id[..|ItemId(j) + "_"|] == ItemId(j) + "_";
      }
      assert RuleSelectsExactly(j, id);
      assert ItemRules(steps, frame)[j - 1] != "";
    }
    if exists k :: 0 <= k < |steps| && ItemRules(steps, frame)[k] != "" && RuleSelectsExactly(k + 1, id) {
      var k :| 0 <= k < |steps| && ItemRules(steps, frame)[k] != "" && RuleSelectsExactly(k + 1, id);
      ItemIdPrefix(j, k + 1, rest);
    }
  }
}
