/**
 What generated code says (crates/floatile-renderer/src/render.rs:119-667): the outline of the text, in document order,
 is the outline of the tree.
 */
module RendererOutline {
  import opened Prelude
  import opened RenderText
  import opened Renderer
  import opened RendererScope
  import opened RendererLoops

  // ---- What a tree puts into the text ----

  /**
   A State path used as a value, as a condition or its negation, or as the array of a loop with that key; the event a
   callback stands for; a text; the item name of a binding; a condition on the width; and the end of a loop.
   */
  datatype Use =
    | Value(path: string, at: ValueType)
    | Condition(path: string, holds: bool)
    | Each(path: string, key: string)
    | EndLoop
    | Calls(event: string)
    | Text(text: string)
    | Shown(name: string)
    | Width(narrow: bool)

  function UseOf(token: Token): Use
  {
    match token
    case PropRef(slot, at) => Value(slot.path, at)
    case When(slot, holds) => Condition(slot.path, holds)
    case Enter(slot, index) => Each(slot.path, index)
    case Leave => EndLoop
    case CallRef(target) => Calls(target.event)
    case Quoted(text) => Text(text)
    case LoopVar(name) => Shown(name)
    case Window(narrow) => Width(narrow)
  }

  function UsesOf(tokens: seq<Token>): seq<Use>
  {
    seq(|tokens|, i requires 0 <= i < |tokens| => UseOf(tokens[i]))
  }

  /** A literal where a text is wanted: null is the empty text. */
  function LiteralText(literal: Literal): seq<Use>
  {
    match literal
    case Str(text) => [Text(text)]
    case Null => [Text("")]
    case _ => []
  }

  function StringUse(comp: Component, prop: string): seq<Use>
  {
    if prop !in comp.props then []
    else match comp.props[prop]
      case State(path) => [Value(path, TString)]
      case Item(name) => [Shown(name)]
      case Lit(literal) => LiteralText(literal)
  }

  /** Before minor version 6 a missing label is the name of the component. */
  function LabelUse(comp: Component, uiMinor: nat): seq<Use>
  {
    if uiMinor < 6 && "accessibilityLabel" !in comp.props then [Text(comp.kind)]
    else StringUse(comp, "accessibilityLabel")
  }

  /** A property that is bound at this type, to an item, or fixed by a literal that is no text. */
  function OtherUse(comp: Component, prop: string, at: ValueType): seq<Use>
  {
    if prop !in comp.props then []
    else match comp.props[prop]
      case State(path) => [Value(path, at)]
      case Item(name) => [Shown(name)]
      case Lit(_) => []
  }

  function EventUse(comp: Component, input: string): seq<Use>
  {
    if input in comp.events then [Calls(comp.events[input])] else []
  }

  function Texts(elements: seq<Literal>): seq<Use>
  {
    if elements == [] then [] else Texts(elements[..|elements| - 1]) + LiteralText(elements[|elements| - 1])
  }

  function ItemsUse(comp: Component): seq<Use>
  {
    if "items" !in comp.props then []
    else match comp.props["items"]
      case State(path) => [Value(path, TStringList)]
      case Item(_) => []
      case Lit(literal) => if literal.Array? then Texts(literal.elements) else []
  }

  function LeafOutline(comp: Component, uiMinor: nat): seq<Use>
  {
    if comp.kind == "Text" then StringUse(comp, "text")
    else if comp.kind == "Badge" then StringUse(comp, "label")
    else if comp.kind == "Button" then
      StringUse(comp, "label") + StringUse(comp, "label") + EventUse(comp, "activate")
    else if comp.kind == "Toggle" then
      LabelUse(comp, uiMinor) + OtherUse(comp, "checked", TBoolean) + OtherUse(comp, "checked", TBoolean)
      + EventUse(comp, "toggle")
    else if comp.kind == "Progress" || comp.kind == "Gauge" then
      LabelUse(comp, uiMinor) + OtherUse(comp, "value", TNumber) + OtherUse(comp, "value", TNumber)
    else if comp.kind == "Sparkline" then StringUse(comp, "label") + OtherUse(comp, "values", TNumberList)
    else if comp.kind == "List" then ItemsUse(comp)
    else []
  }

  function PathUse(binding: Option<PropValue>, use: string -> Use): seq<Use>
  {
    if binding.Some? && binding.value.State? then [use(binding.value.path)] else []
  }

  /** What the tree says, in document order: each branch stands under its condition, each template in its loop. */
  function Outline(comp: Component, uiMinor: nat): seq<Use>
    decreases comp, |comp.children| + 1
  {
    if ShowsChildren(comp) then
      if comp.kind == "Responsive"
      then [Width(true)] + ChildOutlines(comp, 0, uiMinor) + [Width(false)] + ChildOutlines(comp, 0, uiMinor)
      else ChildOutlines(comp, 0, uiMinor)
    else if comp.kind == "If" then
      PathUse(comp.when, path => Condition(path, true))
      + (if comp.thenBranch.Some? then Outline(comp.thenBranch.value, uiMinor) else [])
      + (if comp.elseBranch.Some?
         then PathUse(comp.when, path => Condition(path, false)) + Outline(comp.elseBranch.value, uiMinor) else [])
    else if comp.kind == "ForEach" then
      PathUse(comp.items, path => Each(path, IndexName(comp)))
      + (if comp.template.Some? then Outline(comp.template.value, uiMinor) else [])
      + [EndLoop]
    else LeafOutline(comp, uiMinor)
  }

  function ChildOutlines(comp: Component, i: nat, uiMinor: nat): seq<Use>
    requires i <= |comp.children|
    decreases comp, |comp.children| - i
  {
    if i == |comp.children| then [] else Outline(comp.children[i], uiMinor) + ChildOutlines(comp, i + 1, uiMinor)
  }

  lemma JoinUses(a: seq<Token>, b: seq<Token>)
    ensures UsesOf(a + b) == UsesOf(a) + UsesOf(b)
  {
  }

  // ---- Leaves ----

  lemma SlotUses(path: string, valueType: ValueType, ctx: Ctx)
    requires Declared(ctx) && BindingSlot(path, valueType, ctx).Ok?
    ensures BindingSlot(path, valueType, ctx).value.1.path == path
    ensures Declared(BindingSlot(path, valueType, ctx).value.0)
    ensures BindingSlot(path, valueType, ctx).value.0.uiMinor == ctx.uiMinor
  {
    StateRefIsGood(path, valueType, ctx);
  }

  /** The part says this, and the context stays in order. */
  ghost predicate Says(ctx: Ctx, r: Rendered, uses: seq<Use>)
  {
    r.Done? ==> UsesOf(r.tokens) == uses && Declared(r.ctx) && r.ctx.uiMinor == ctx.uiMinor
  }

  lemma StateRefSays(path: string, valueType: ValueType, ctx: Ctx)
    requires Declared(ctx)
    ensures Says(ctx, StateRef(path, valueType, ctx), [Value(path, valueType)])
  {
    if StateRef(path, valueType, ctx).Done? {
      SlotUses(path, valueType, ctx);
    }
  }

  lemma StringPropSays(comp: Component, prop: string, ctx: Ctx)
    requires Declared(ctx)
    ensures Says(ctx, StringProp(comp, prop, ctx), StringUse(comp, prop))
  {
    if prop in comp.props && comp.props[prop].State? {
      StateRefSays(comp.props[prop].path, TString, ctx);
    }
  }

  lemma LabelSays(comp: Component, ctx: Ctx)
    requires Declared(ctx)
    ensures Says(ctx, AccessibilityLabel(comp, ctx), LabelUse(comp, ctx.uiMinor))
  {
    StringPropSays(comp, "accessibilityLabel", ctx);
  }

  lemma HandlerSays(comp: Component, input: string, ctx: Ctx)
    requires Declared(ctx)
    ensures Says(ctx, Handler(comp, input, ctx), EventUse(comp, input))
  {
    HandlerIsGood(comp, input, ctx);
  }

  lemma JoinFour(a: seq<Token>, b: seq<Token>, c: seq<Token>)
    ensures UsesOf(a + b + b + c) == UsesOf(a) + UsesOf(b) + UsesOf(b) + UsesOf(c)
    ensures UsesOf(a + b + b) == UsesOf(a) + UsesOf(b) + UsesOf(b)
    ensures UsesOf(b + b + c) == UsesOf(b) + UsesOf(b) + UsesOf(c)
  {
    JoinUses(a, b);
    JoinUses(a + b, b);
    JoinUses(a + b + b, c);
    JoinUses(b, b);
    JoinUses(b + b, c);
  }

  lemma ButtonSays(comp: Component, ctx: Ctx)
    requires Declared(ctx)
    ensures var caption := StringUse(comp, "label");
      Says(ctx, Button(comp, ctx), caption + caption + EventUse(comp, "activate"))
  {
    var caption := StringProp(comp, "label", ctx);
    StringPropSays(comp, "label", ctx);
    if caption.Done? {
      var click := Handler(comp, "activate", caption.ctx);
      HandlerSays(comp, "activate", caption.ctx);
      if click.Done? {
        JoinFour([], caption.tokens, click.tokens);
      }
    }
  }

  lemma CheckedSays(comp: Component, ctx: Ctx)
    requires Declared(ctx)
    ensures Says(ctx, Checked(comp, ctx), OtherUse(comp, "checked", TBoolean))
  {
    if "checked" in comp.props && comp.props["checked"].State? {
      StateRefSays(comp.props["checked"].path, TBoolean, ctx);
    }
  }

  lemma ToggleSays(comp: Component, ctx: Ctx)
    requires Declared(ctx)
    ensures var box := OtherUse(comp, "checked", TBoolean);
      Says(ctx, Toggle(comp, ctx), LabelUse(comp, ctx.uiMinor) + box + box + EventUse(comp, "toggle"))
  {
    var checked := Checked(comp, ctx);
    CheckedSays(comp, ctx);
    if checked.Done? {
      var caption := AccessibilityLabel(comp, checked.ctx);
      LabelSays(comp, checked.ctx);
      if caption.Done? {
        var click := Handler(comp, "toggle", caption.ctx);
        HandlerSays(comp, "toggle", caption.ctx);
        if click.Done? {
          JoinFour(caption.tokens, checked.tokens, click.tokens);
        }
      }
    }
  }

  lemma MeterSays(comp: Component, ctx: Ctx)
    requires Declared(ctx)
    ensures var value := OtherUse(comp, "value", TNumber);
      Says(ctx, Meter(comp, ctx), LabelUse(comp, ctx.uiMinor) + value + value)
  {
    var value := MeterValue(comp, ctx);
    if "value" in comp.props && comp.props["value"].State? {
      StateRefSays(comp.props["value"].path, TNumber, ctx);
    }
    if value.Done? {
      var caption := AccessibilityLabel(comp, value.ctx);
      LabelSays(comp, value.ctx);
      if caption.Done? {
        JoinFour(caption.tokens, value.tokens, []);
      }
    }
  }

  lemma SparklineSays(comp: Component, ctx: Ctx)
    requires Declared(ctx)
    ensures Says(ctx, Sparkline(comp, ctx), StringUse(comp, "label") + OtherUse(comp, "values", TNumberList))
  {
    var caption := SparklineLabel(comp, ctx);
    SparkLabelSays(comp, ctx);
    if caption.Done? {
      var bars := SparklineBars(comp, caption.ctx);
      BarsSay(comp, caption.ctx);
      if bars.Done? {
        JoinUses(caption.tokens, bars.tokens);
      }
    }
  }

  lemma SparkLabelSays(comp: Component, ctx: Ctx)
    requires Declared(ctx)
    ensures Says(ctx, SparklineLabel(comp, ctx), StringUse(comp, "label"))
  {
    if "label" in comp.props && comp.props["label"].State? {
      StateRefSays(comp.props["label"].path, TString, ctx);
    }
  }

  lemma BarsSay(comp: Component, ctx: Ctx)
    requires Declared(ctx)
    ensures Says(ctx, SparklineBars(comp, ctx), OtherUse(comp, "values", TNumberList))
  {
    if "values" in comp.props && comp.props["values"].State? {
      StateRefSays(comp.props["values"].path, TNumberList, ctx);
    }
  }

  lemma {:induction false} QuoteAllSays(texts: seq<Literal>, ctx: Ctx)
    requires Declared(ctx)
    ensures Says(ctx, QuoteAll(texts, ctx), Texts(texts))
    ensures QuoteAll(texts, ctx).Done? ==> QuoteAll(texts, ctx).ctx == ctx
  {
    if texts != [] {
      var n := |texts| - 1;
      QuoteAllSays(texts[..n], ctx);
      if QuoteAll(texts, ctx).Done? {
        JoinUses(QuoteAll(texts[..n], ctx).tokens, [Quoted(texts[n].text)]);
      }
    }
  }

  lemma ListItemsSays(comp: Component, ctx: Ctx)
    requires Declared(ctx) && "items" in comp.props
    ensures Says(ctx, ListItems(comp, ctx), ItemsUse(comp))
  {
    match comp.props["items"]
    case State(path) => StateRefSays(path, TStringList, ctx);
    case Item(_) =>
    case Lit(literal) =>
      if literal.Array? {
        QuoteAllSays(literal.elements, ctx);
      }
  }

  // ---- The tree ----

  /** The code of every subtree says what the subtree says, in its order. */
  lemma {:induction false} NodeSays(comp: Component, ctx0: Ctx, depth: nat)
    requires Declared(ctx0)
    ensures Says(ctx0, Node(comp, ctx0, depth), Outline(comp, ctx0.uiMinor))
    decreases comp, |comp.children| + 1
  {
    var ctx := ctx0.(nodes := ctx0.nodes + 1);
    if Node(comp, ctx0, depth).Done? {
      assert Declared(ctx) && Node(comp, ctx0, depth) == Body(comp, ctx, depth);
      if ShowsChildren(comp) {
        ChildrenSay(comp, 0, ctx, depth);
        if comp.kind == "Responsive" {
          ResponsiveSays(comp, ctx, depth);
        }
      } else if comp.kind == "If" {
        ConditionalSays(comp, ctx, depth);
      } else if comp.kind == "ForEach" {
        LoopSays(comp, ctx, depth);
      } else {
        LeafSays(comp, ctx, depth);
      }
    }
  }

  lemma SimpleLeafSays(comp: Component, ctx: Ctx, depth: nat)
    requires Declared(ctx) && comp.kind in {"Text", "Badge", "Button"}
    ensures Says(ctx, Body(comp, ctx, depth), Outline(comp, ctx.uiMinor))
  {
    if comp.kind == "Button" {
      ButtonSays(comp, ctx);
    } else {
      StringPropSays(comp, if comp.kind == "Text" then "text" else "label", ctx);
    }
  }

  lemma ToggleLeafSays(comp: Component, ctx: Ctx, depth: nat)
    requires Declared(ctx) && comp.kind == "Toggle"
    ensures Says(ctx, Body(comp, ctx, depth), Outline(comp, ctx.uiMinor))
  {
    ToggleSays(comp, ctx);
  }

  lemma SparklineShape(comp: Component, ctx: Ctx, depth: nat)
    requires comp.kind == "Sparkline"
    ensures Body(comp, ctx, depth) == Sparkline(comp, ctx)
    ensures Outline(comp, ctx.uiMinor) == StringUse(comp, "label") + OtherUse(comp, "values", TNumberList)
  {
    assert LeafOutline(comp, ctx.uiMinor) == StringUse(comp, "label") + OtherUse(comp, "values", TNumberList);
  }

  lemma SparklineLeafSays(comp: Component, ctx: Ctx, depth: nat)
    requires Declared(ctx) && comp.kind == "Sparkline"
    ensures Says(ctx, Body(comp, ctx, depth), Outline(comp, ctx.uiMinor))
  {
    SparklineShape(comp, ctx, depth);
    SparklineSays(comp, ctx);
  }

  lemma MeterShape(comp: Component, ctx: Ctx, depth: nat)
    requires comp.kind == "Progress" || comp.kind == "Gauge"
    ensures Body(comp, ctx, depth) == Meter(comp, ctx)
    ensures var value := OtherUse(comp, "value", TNumber);
      Outline(comp, ctx.uiMinor) == LabelUse(comp, ctx.uiMinor) + value + value
  {
    assert LeafOutline(comp, ctx.uiMinor) ==
           LabelUse(comp, ctx.uiMinor) + OtherUse(comp, "value", TNumber) + OtherUse(comp, "value", TNumber);
  }

  lemma MeterLeafSays(comp: Component, ctx: Ctx, depth: nat)
    requires Declared(ctx) && (comp.kind == "Progress" || comp.kind == "Gauge")
    ensures Says(ctx, Body(comp, ctx, depth), Outline(comp, ctx.uiMinor))
  {
    MeterShape(comp, ctx, depth);
    MeterSays(comp, ctx);
  }

  lemma ListLeafSays(comp: Component, ctx: Ctx, depth: nat)
    requires Declared(ctx) && comp.kind == "List" && "items" in comp.props
    ensures Says(ctx, Body(comp, ctx, depth), Outline(comp, ctx.uiMinor))
  {
    ListItemsSays(comp, ctx);
  }

  /** A component without components of its own. */
  lemma LeafSays(comp: Component, ctx: Ctx, depth: nat)
    requires Declared(ctx) && !ShowsChildren(comp) && comp.kind != "If" && comp.kind != "ForEach"
    ensures Says(ctx, Body(comp, ctx, depth), Outline(comp, ctx.uiMinor))
  {
    if comp.kind == "List" {
      ListLeafSays(comp, ctx, depth);
    } else if comp.kind == "Toggle" {
      ToggleLeafSays(comp, ctx, depth);
    } else if comp.kind == "Sparkline" {
      SparklineLeafSays(comp, ctx, depth);
    } else if comp.kind == "Progress" || comp.kind == "Gauge" {
      MeterLeafSays(comp, ctx, depth);
    } else if comp.kind in {"Text", "Badge", "Button"} {
      SimpleLeafSays(comp, ctx, depth);
    }
  }

  lemma {:induction false} ChildrenSay(comp: Component, i: nat, ctx: Ctx, depth: nat)
    requires Declared(ctx) && i <= |comp.children|
    ensures Says(ctx, Children(comp, i, ctx, depth), ChildOutlines(comp, i, ctx.uiMinor))
    decreases comp, |comp.children| - i
  {
    if i < |comp.children| {
      var first := Node(comp.children[i], ctx, depth + 1);
      NodeSays(comp.children[i], ctx, depth + 1);
      if first.Done? {
        var rest := Children(comp, i + 1, first.ctx, depth);
        ChildrenSay(comp, i + 1, first.ctx, depth);
        if rest.Done? {
          JoinUses(first.tokens, rest.tokens);
        }
      }
    }
  }

  lemma ResponsiveSays(comp: Component, ctx: Ctx, depth: nat)
    requires Responsive(comp, ctx, depth).Done?
    ensures Responsive(comp, ctx, depth).ctx == Children(comp, 0, ctx, depth).ctx
    ensures var body := UsesOf(Children(comp, 0, ctx, depth).tokens);
      UsesOf(Responsive(comp, ctx, depth).tokens) == [Width(true)] + body + [Width(false)] + body
  {
    var body := Children(comp, 0, ctx, depth).tokens;
    JoinUses([Window(true)], body);
    JoinUses([Window(true)] + body, [Window(false)]);
    JoinUses([Window(true)] + body + [Window(false)], body);
  }

  function BranchOutline(branch: Option<Component>, uiMinor: nat): seq<Use>
  {
    if branch.Some? then Outline(branch.value, uiMinor) else []
  }

  lemma NestedOutline(comp: Component, uiMinor: nat, path: string)
    ensures comp.kind == "If" && comp.when == Some(State(path)) ==>
              Outline(comp, uiMinor) ==
              [Condition(path, true)] + BranchOutline(comp.thenBranch, uiMinor) +
              (if comp.elseBranch.Some? then [Condition(path, false)] + BranchOutline(comp.elseBranch, uiMinor) else [])
    ensures comp.kind == "ForEach" && comp.items == Some(State(path)) ==>
              Outline(comp, uiMinor) ==
              [Each(path, IndexName(comp))] + BranchOutline(comp.template, uiMinor) + [EndLoop]
  {
  }

  lemma JoinBranchUses(slot: Slot, yes: seq<Token>, no: seq<Token>)
    ensures UsesOf([When(slot, true)] + yes) == [Condition(slot.path, true)] + UsesOf(yes)
    ensures UsesOf([When(slot, true)] + yes + [When(slot, false)] + no) ==
            [Condition(slot.path, true)] + UsesOf(yes) + ([Condition(slot.path, false)] + UsesOf(no))
  {
    JoinUses([When(slot, true)], yes);
    JoinUses([When(slot, true)] + yes, [When(slot, false)]);
    JoinUses([When(slot, true)] + yes + [When(slot, false)], no);
  }

  lemma {:induction false} BranchSays(branch: Component, ctx: Ctx, depth: nat)
    requires Declared(ctx)
    ensures Says(ctx, Node(branch, ctx, depth), BranchOutline(Some(branch), ctx.uiMinor))
    decreases branch, |branch.children| + 2
  {
    NodeSays(branch, ctx, depth);
  }

  lemma {:induction false} ConditionalSays(comp: Component, ctx: Ctx, depth: nat)
    requires Declared(ctx) && comp.kind == "If" && Conditional(comp, ctx, depth).Done?
    ensures Says(ctx, Conditional(comp, ctx, depth), Outline(comp, ctx.uiMinor))
    decreases comp, |comp.children| + 1, 0
  {
    var path := comp.when.value.path;
    var (next, slot) := BindingSlot(path, TBoolean, ctx).value;
    SlotUses(path, TBoolean, ctx);
    var yes := Node(comp.thenBranch.value, next, depth + 1);
    BranchSays(comp.thenBranch.value, next, depth + 1);
    var no := if comp.elseBranch.Some? then Node(comp.elseBranch.value, yes.ctx, depth + 1) else Done(yes.ctx, []);
    if comp.elseBranch.Some? {
      BranchSays(comp.elseBranch.value, yes.ctx, depth + 1);
    }
    JoinBranchUses(slot, yes.tokens, no.tokens);
    NestedOutline(comp, ctx.uiMinor, path);
  }

  lemma JoinLoopUses(slot: Slot, index: string, body: seq<Token>)
    ensures UsesOf([Enter(slot, index)] + body + [Leave]) == [Each(slot.path, index)] + UsesOf(body) + [EndLoop]
  {
    JoinUses([Enter(slot, index)], body);
    JoinUses([Enter(slot, index)] + body, [Leave]);
  }

  lemma {:induction false} LoopSays(comp: Component, ctx: Ctx, depth: nat)
    requires Declared(ctx) && comp.kind == "ForEach" && Loop(comp, ctx, depth).Done?
    ensures Says(ctx, Loop(comp, ctx, depth), Outline(comp, ctx.uiMinor))
    decreases comp, |comp.children| + 1, 0
  {
    var path := comp.items.value.path;
    var (next, slot) := BindingSlot(path, TString, ctx).value;
    SlotUses(path, TString, ctx);
    BranchSays(comp.template.value, next, depth + 1);
    JoinLoopUses(slot, IndexName(comp), Node(comp.template.value, next, depth + 1).tokens);
    NestedOutline(comp, ctx.uiMinor, path);
  }

  /** The text generated for an accepted tree says exactly what the tree says, in document order. */
  lemma CodeSaysTree(root: Component, uiMinor: nat)
    requires RenderComponent(root, uiMinor).Done?
    ensures UsesOf(RenderComponent(root, uiMinor).tokens) == Outline(root, uiMinor)
  {
    NodeSays(root, Fresh(uiMinor), 0);
  }

}
