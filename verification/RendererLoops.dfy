/**
 Loop names and loop arrays in generated code (crates/floatile-renderer/src/render.rs:371-376, 644-680).

 A `ForEach` becomes `for item[<key>] in root.<prop>`, and an item binding is emitted as its bare name, whatever
 that is. What a name stands for depends on the loops around it only, so the tree can tell before any code is
 generated. Which strings are names at all, and what they denote, is the subject of module RendererNames.
 */
module RendererLoops {
  import opened Prelude
  import opened RenderText
  import opened Renderer
  import opened RendererScope

  // ---- Names in the generated tokens ----

  /** A test of an item name, given the index names of the loops around it. */
  type Test = (string, seq<string>) -> bool

  /** Reads the tokens with the index names of the enclosing loops; None at a name that fails the test. */
  function Scan(tokens: seq<Token>, loops: seq<string>, test: Test): Option<seq<string>>
    decreases |tokens|
  {
    if tokens == [] then Some(loops)
    else match tokens[0]
      case Enter(_, index) => Scan(tokens[1..], loops + [index], test)
      case Leave => if loops == [] then None else Scan(tokens[1..], loops[..|loops| - 1], test)
      case LoopVar(name) => if test(name, loops) then Scan(tokens[1..], loops, test) else None
      case _ => Scan(tokens[1..], loops, test)
  }

  /** Values are used at their declared type, and what a loop iterates over is a list. */
  predicate WellTyped(token: Token)
  {
    match token
    case PropRef(slot, at) => slot.valueType == at
    case Enter(slot, _) => slot.valueType.TStringList? || slot.valueType.TNumberList?
    case When(slot, _) => slot.valueType.TBoolean?
    case _ => true
  }

  lemma {:induction false} ScanJoin(a: seq<Token>, b: seq<Token>, loops: seq<string>, test: Test)
    ensures Scan(a + b, loops, test) ==
            if Scan(a, loops, test).None? then None else Scan(b, Scan(a, loops, test).value, test)
    decreases |a|
  {
    if a == [] {
      assert a + b == b;
    } else {
      assert (a + b)[1..] == a[1..] + b && (a + b)[0] == a[0];
      match a[0]
      case Enter(_, index) => ScanJoin(a[1..], b, loops + [index], test);
      case Leave =>
        if loops != [] {
          ScanJoin(a[1..], b, loops[..|loops| - 1], test);
        }
      case LoopVar(_) => ScanJoin(a[1..], b, loops, test);
      case PropRef(_, _) => ScanJoin(a[1..], b, loops, test);
      case CallRef(_) => ScanJoin(a[1..], b, loops, test);
      case Quoted(_) => ScanJoin(a[1..], b, loops, test);
      case When(_, _) => ScanJoin(a[1..], b, loops, test);
      case Window(_) => ScanJoin(a[1..], b, loops, test);
    }
  }

  // ---- Names in the tree ----

  /** The properties a component of this kind shows by their bare item name. */
  function ShownProps(kind: string): set<string>
  {
    if kind == "Text" then {"text"}
    else if kind == "Button" || kind == "Badge" then {"label"}
    else if kind == "Toggle" then {"checked", "accessibilityLabel"}
    else if kind == "Progress" || kind == "Gauge" then {"accessibilityLabel"}
    else {}
  }

  predicate ItemsVisible(comp: Component, props: set<string>, loops: seq<string>, test: Test)
  {
    forall p | p in props && p in comp.props && comp.props[p].Item? :: test(comp.props[p].name, loops)
  }

  predicate ShowsChildren(comp: Component)
  {
    || comp.kind in {"Column", "Row", "Stack", "Grid", "Responsive"}
    || (comp.kind == "List" && "items" !in comp.props)
  }

  /** Every item name shown is `item` or the key of an enclosing loop, and there is an enclosing loop. */
  predicate Bound(comp: Component, loops: seq<string>, test: Test)
  {
    && ItemsVisible(comp, ShownProps(comp.kind), loops, test)
    && (ShowsChildren(comp) ==> forall i | 0 <= i < |comp.children| :: Bound(comp.children[i], loops, test))
    && (comp.kind == "If" ==>
          && (comp.thenBranch.Some? ==> Bound(comp.thenBranch.value, loops, test))
          && (comp.elseBranch.Some? ==> Bound(comp.elseBranch.value, loops, test)))
    && (comp.kind == "ForEach" && comp.template.Some? ==> Bound(comp.template.value, loops + [IndexName(comp)], test))
  }

  /** The tree shows a loop somewhere. */
  predicate HasLoop(comp: Component)
  {
    || comp.kind == "ForEach"
    || (ShowsChildren(comp) && exists i | 0 <= i < |comp.children| :: HasLoop(comp.children[i]))
    || (comp.kind == "If" && comp.thenBranch.Some? && HasLoop(comp.thenBranch.value))
    || (comp.kind == "If" && comp.elseBranch.Some? && HasLoop(comp.elseBranch.value))
  }

  predicate Enters(tokens: seq<Token>)
  {
    exists t | t in tokens :: t.Enter?
  }

  /** What the tokens of a part say about names and loops. */
  ghost predicate Reads(tokens: seq<Token>, loops: seq<string>, test: Test, ok: bool, entered: bool)
  {
    && Scan(tokens, loops, test) == (if ok then Some(loops) else None)
    && (Enters(tokens) <==> entered)
  }

  lemma ReadsJoin(a: seq<Token>, b: seq<Token>, loops: seq<string>, test: Test, okA: bool, okB: bool, inA: bool,
      inB: bool)
    requires Reads(a, loops, test, okA, inA) && Reads(b, loops, test, okB, inB)
    ensures Reads(a + b, loops, test, okA && okB, inA || inB)
  {
    ScanJoin(a, b, loops, test);
    assert forall t :: t in a + b <==> t in a || t in b;
    if Enters(a) {
      var t :| t in a && t.Enter?;
      assert t in a + b;
    }
    if Enters(b) {
      var t :| t in b && t.Enter?;
      assert t in a + b;
    }
  }

  // ---- Leaves ----

  /** A property read as a single token: fixed text, a reference, or a bare name. */
  predicate Single(tokens: seq<Token>, value: Option<PropValue>)
  {
    if value.Some? && value.value.Item? then tokens == [LoopVar(value.value.name)]
    else forall t | t in tokens :: t.PropRef? || t.Quoted? || t.CallRef?
  }

  function Prop(comp: Component, prop: string): Option<PropValue>
  {
    if prop in comp.props then Some(comp.props[prop]) else None
  }

  predicate ValueVisible(value: Option<PropValue>, loops: seq<string>, test: Test)
  {
    value.Some? && value.value.Item? ==> test(value.value.name, loops)
  }

  lemma {:induction false} PlainReads(tokens: seq<Token>, loops: seq<string>, test: Test)
    requires forall t | t in tokens :: t.PropRef? || t.Quoted? || t.CallRef? || t.When? || t.Window?
    ensures Reads(tokens, loops, test, true, false)
    decreases |tokens|
  {
    if tokens != [] {
      PlainReads(tokens[1..], loops, test);
      assert tokens[0] in tokens;
    }
  }

  lemma SingleReads(tokens: seq<Token>, value: Option<PropValue>, loops: seq<string>, test: Test)
    requires Single(tokens, value)
    ensures Reads(tokens, loops, test, ValueVisible(value, loops, test), false)
  {
    if value.Some? && value.value.Item? {
      assert tokens[1..] == [];
    } else {
      PlainReads(tokens, loops, test);
    }
  }

  lemma StringPropSingle(comp: Component, prop: string, ctx: Ctx)
    requires StringProp(comp, prop, ctx).Done?
    ensures Single(StringProp(comp, prop, ctx).tokens, Prop(comp, prop))
  {
  }

  lemma LabelSingle(comp: Component, ctx: Ctx)
    requires AccessibilityLabel(comp, ctx).Done?
    ensures Single(AccessibilityLabel(comp, ctx).tokens, Prop(comp, "accessibilityLabel"))
  {
    if !(ctx.uiMinor < 6 && "accessibilityLabel" !in comp.props) {
      StringPropSingle(comp, "accessibilityLabel", ctx);
    }
  }

  lemma ButtonReads(comp: Component, ctx: Ctx, loops: seq<string>, test: Test)
    requires Button(comp, ctx).Done?
    ensures Reads(Button(comp, ctx).tokens, loops, test, ValueVisible(Prop(comp, "label"), loops, test), false)
  {
    var caption := StringProp(comp, "label", ctx);
    var click := Handler(comp, "activate", caption.ctx);
    var ok := ValueVisible(Prop(comp, "label"), loops, test);
    StringPropSingle(comp, "label", ctx);
    SingleReads(caption.tokens, Prop(comp, "label"), loops, test);
    PlainReads(click.tokens, loops, test);
    ReadsJoin(caption.tokens, caption.tokens, loops, test, ok, ok, false, false);
    ReadsJoin(caption.tokens + caption.tokens, click.tokens, loops, test, ok, true, false, false);
  }

  lemma ToggleReads(comp: Component, ctx: Ctx, loops: seq<string>, test: Test)
    requires Toggle(comp, ctx).Done?
    ensures Reads(Toggle(comp, ctx).tokens, loops, test,
                  ValueVisible(Prop(comp, "checked"), loops, test)
                      && ValueVisible(Prop(comp, "accessibilityLabel"), loops, test), false)
  {
    var checked := Checked(comp, ctx);
    var caption := AccessibilityLabel(comp, checked.ctx);
    var click := Handler(comp, "toggle", caption.ctx);
    var okC, okL := ValueVisible(Prop(comp, "checked"), loops, test),
        ValueVisible(Prop(comp, "accessibilityLabel"), loops, test);
    SingleReads(checked.tokens, Prop(comp, "checked"), loops, test);
    LabelSingle(comp, checked.ctx);
    SingleReads(caption.tokens, Prop(comp, "accessibilityLabel"), loops, test);
    PlainReads(click.tokens, loops, test);
    var one := caption.tokens + checked.tokens;
    ReadsJoin(caption.tokens, checked.tokens, loops, test, okL, okC, false, false);
    ReadsJoin(one, checked.tokens, loops, test, okL && okC, okC, false, false);
    ReadsJoin(one + checked.tokens, click.tokens, loops, test, okL && okC, true, false, false);
  }

  lemma MeterReads(comp: Component, ctx: Ctx, loops: seq<string>, test: Test)
    requires Meter(comp, ctx).Done?
    ensures Reads(Meter(comp, ctx).tokens, loops, test, ValueVisible(Prop(comp, "accessibilityLabel"), loops, test),
        false)
  {
    var value := MeterValue(comp, ctx);
    var caption := AccessibilityLabel(comp, value.ctx);
    var ok := ValueVisible(Prop(comp, "accessibilityLabel"), loops, test);
    LabelSingle(comp, value.ctx);
    SingleReads(caption.tokens, Prop(comp, "accessibilityLabel"), loops, test);
    PlainReads(value.tokens, loops, test);
    ReadsJoin(caption.tokens, value.tokens, loops, test, ok, true, false, false);
    ReadsJoin(caption.tokens + value.tokens, value.tokens, loops, test, ok, true, false, false);
  }

  lemma {:induction false} QuoteAllPlain(texts: seq<Literal>, ctx: Ctx)
    requires QuoteAll(texts, ctx).Done?
    ensures forall t | t in QuoteAll(texts, ctx).tokens :: t.Quoted?
  {
    if texts != [] {
      QuoteAllPlain(texts[..|texts| - 1], ctx);
    }
  }

  lemma PlainLeafReads(comp: Component, ctx: Ctx, loops: seq<string>, test: Test)
    requires comp.kind == "Sparkline" ==> Sparkline(comp, ctx).Done?
    requires comp.kind == "List" && "items" in comp.props ==> ListItems(comp, ctx).Done?
    ensures comp.kind == "Sparkline" ==> Reads(Sparkline(comp, ctx).tokens, loops, test, true, false)
    ensures comp.kind == "List" && "items" in comp.props ==>
              Reads(ListItems(comp, ctx).tokens, loops, test, true, false)
  {
    if comp.kind == "Sparkline" {
      PlainReads(Sparkline(comp, ctx).tokens, loops, test);
    }
    if comp.kind == "List" && "items" in comp.props {
      if comp.props["items"].Lit? {
        QuoteAllPlain(comp.props["items"].literal.elements, ctx);
      }
      PlainReads(ListItems(comp, ctx).tokens, loops, test);
    }
  }

  // ---- The tree ----

  lemma {:induction false} NodeReads(comp: Component, ctx0: Ctx, depth: nat, loops: seq<string>, test: Test)
    requires Node(comp, ctx0, depth).Done?
    ensures Reads(Node(comp, ctx0, depth).tokens, loops, test, Bound(comp, loops, test), HasLoop(comp))
    decreases comp, |comp.children| + 1
  {
    var ctx := ctx0.(nodes := ctx0.nodes + 1);
    assert Node(comp, ctx0, depth) == Body(comp, ctx, depth);
    if ShowsChildren(comp) {
      ChildrenRead(comp, 0, ctx, depth, loops, test);
      if comp.kind == "Responsive" {
        ResponsiveReads(comp, ctx, depth, loops, test);
      }
    } else if comp.kind == "If" {
      ConditionalReads(comp, ctx, depth, loops, test);
    } else if comp.kind == "ForEach" {
      LoopReads(comp, ctx, depth, loops, test);
    } else {
      LeafReads(comp, ctx, depth, loops, test);
    }
  }

  lemma LeafReads(comp: Component, ctx: Ctx, depth: nat, loops: seq<string>, test: Test)
    requires Body(comp, ctx, depth).Done?
    requires !ShowsChildren(comp) && comp.kind != "If" && comp.kind != "ForEach"
    ensures Reads(Body(comp, ctx, depth).tokens, loops, test, Bound(comp, loops, test), HasLoop(comp))
  {
    var r := Body(comp, ctx, depth);
    assert !HasLoop(comp);
    assert Bound(comp, loops, test) <==> ItemsVisible(comp, ShownProps(comp.kind), loops, test);
    if comp.kind == "Text" || comp.kind == "Badge" {
      var prop := if comp.kind == "Text" then "text" else "label";
      StringPropSingle(comp, prop, ctx);
      SingleReads(r.tokens, Prop(comp, prop), loops, test);
      assert ItemsVisible(comp, {prop}, loops, test) <==> ValueVisible(Prop(comp, prop), loops, test);
    } else if comp.kind == "Button" {
      ButtonReads(comp, ctx, loops, test);
      assert ItemsVisible(comp, {"label"}, loops, test) <==> ValueVisible(Prop(comp, "label"), loops, test);
    } else if comp.kind == "Toggle" {
      ToggleReads(comp, ctx, loops, test);
    } else if comp.kind == "Progress" || comp.kind == "Gauge" {
      MeterReads(comp, ctx, loops, test);
    } else {
      PlainLeafReads(comp, ctx, loops, test);
    }
  }

  predicate ChildrenBound(comp: Component, i: nat, loops: seq<string>, test: Test)
  {
    forall j | i <= j < |comp.children| :: Bound(comp.children[j], loops, test)
  }

  predicate ChildrenLoop(comp: Component, i: nat)
  {
    exists j | i <= j < |comp.children| :: HasLoop(comp.children[j])
  }

  lemma ChildrenSplit(comp: Component, i: nat, loops: seq<string>, test: Test)
    requires i < |comp.children|
    ensures ChildrenBound(comp, i, loops, test) <==>
            Bound(comp.children[i], loops, test) && ChildrenBound(comp, i + 1, loops, test)
    ensures ChildrenLoop(comp, i) <==> HasLoop(comp.children[i]) || ChildrenLoop(comp, i + 1)
  {
  }

  lemma {:induction false} ChildrenRead(comp: Component, i: nat, ctx: Ctx, depth: nat, loops: seq<string>, test: Test)
    requires i <= |comp.children| && Children(comp, i, ctx, depth).Done?
    ensures Reads(Children(comp, i, ctx, depth).tokens, loops, test, ChildrenBound(comp, i, loops, test),
        ChildrenLoop(comp, i))
    decreases comp, |comp.children| - i
  {
    if i < |comp.children| {
      var child := comp.children[i];
      var first := Node(child, ctx, depth + 1);
      var rest := Children(comp, i + 1, first.ctx, depth);
      NodeReads(child, ctx, depth + 1, loops, test);
      ChildrenRead(comp, i + 1, first.ctx, depth, loops, test);
      ReadsJoin(first.tokens, rest.tokens, loops, test,
                Bound(child, loops, test), ChildrenBound(comp, i + 1, loops, test),
                HasLoop(child), ChildrenLoop(comp, i + 1));
      ChildrenSplit(comp, i, loops, test);
    }
  }

  lemma ResponsiveReads(comp: Component, ctx: Ctx, depth: nat, loops: seq<string>, test: Test)
    requires Responsive(comp, ctx, depth).Done?
    requires Reads(Children(comp, 0, ctx, depth).tokens, loops, test, ChildrenBound(comp, 0, loops, test),
        ChildrenLoop(comp, 0))
    ensures Reads(Responsive(comp, ctx, depth).tokens, loops, test, ChildrenBound(comp, 0, loops, test),
        ChildrenLoop(comp, 0))
  {
    var body := Children(comp, 0, ctx, depth).tokens;
    var ok, entered := ChildrenBound(comp, 0, loops, test), ChildrenLoop(comp, 0);
    var narrow, wide := [Window(true)], [Window(false)];
    PlainReads(narrow, loops, test);
    PlainReads(wide, loops, test);
    ReadsJoin(narrow, body, loops, test, true, ok, false, entered);
    ReadsJoin(narrow + body, wide, loops, test, ok, true, entered, false);
    ReadsJoin(narrow + body + wide, body, loops, test, ok, ok, entered, entered);
  }

  predicate BranchBound(branch: Option<Component>, loops: seq<string>, test: Test)
  {
    branch.Some? ==> Bound(branch.value, loops, test)
  }

  predicate BranchLoop(branch: Option<Component>)
  {
    branch.Some? && HasLoop(branch.value)
  }

  lemma IfReads(comp: Component, loops: seq<string>, test: Test)
    requires comp.kind == "If"
    ensures Bound(comp, loops, test) <==>
            BranchBound(comp.thenBranch, loops, test) && BranchBound(comp.elseBranch, loops, test)
    ensures HasLoop(comp) <==> BranchLoop(comp.thenBranch) || BranchLoop(comp.elseBranch)
  {
  }

  lemma JoinBranches(slot: Slot, yes: seq<Token>, no: seq<Token>, loops: seq<string>, test: Test,
                     okYes: bool, okNo: bool, inYes: bool, inNo: bool)
    requires Reads(yes, loops, test, okYes, inYes) && Reads(no, loops, test, okNo, inNo)
    ensures Reads([When(slot, true)] + yes, loops, test, okYes, inYes)
    ensures Reads([When(slot, true)] + yes + [When(slot, false)] + no, loops, test, okYes && okNo, inYes || inNo)
  {
    var when, else_ := [When(slot, true)], [When(slot, false)];
    PlainReads(when, loops, test);
    PlainReads(else_, loops, test);
    ReadsJoin(when, yes, loops, test, true, okYes, false, inYes);
    ReadsJoin(when + yes, else_, loops, test, okYes, true, inYes, false);
    ReadsJoin(when + yes + else_, no, loops, test, okYes, okNo, inYes, inNo);
  }

  lemma {:induction false} BranchReads(branch: Component, ctx: Ctx, depth: nat, loops: seq<string>, test: Test)
    requires Node(branch, ctx, depth).Done?
    ensures Reads(Node(branch, ctx, depth).tokens, loops, test,
                  BranchBound(Some(branch), loops, test), BranchLoop(Some(branch)))
    decreases branch, |branch.children| + 2
  {
    NodeReads(branch, ctx, depth, loops, test);
  }

  lemma {:induction false} ConditionalReads(comp: Component, ctx: Ctx, depth: nat, loops: seq<string>, test: Test)
    requires comp.kind == "If" && Conditional(comp, ctx, depth).Done?
    ensures Reads(Conditional(comp, ctx, depth).tokens, loops, test, Bound(comp, loops, test), HasLoop(comp))
    decreases comp, |comp.children| + 1, 0
  {
    var (next, slot) := BindingSlot(comp.when.value.path, TBoolean, ctx).value;
    var yes := Node(comp.thenBranch.value, next, depth + 1);
    var no := if comp.elseBranch.Some? then Node(comp.elseBranch.value, yes.ctx, depth + 1) else Done(yes.ctx, []);
    BranchReads(comp.thenBranch.value, next, depth + 1, loops, test);
    if comp.elseBranch.Some? {
      BranchReads(comp.elseBranch.value, yes.ctx, depth + 1, loops, test);
    } else {
      PlainReads([], loops, test);
    }
    JoinBranches(slot, yes.tokens, no.tokens, loops, test,
                 BranchBound(comp.thenBranch, loops, test), BranchBound(comp.elseBranch, loops, test),
                 BranchLoop(comp.thenBranch), BranchLoop(comp.elseBranch));
    IfReads(comp, loops, test);
  }

  lemma {:induction false} LoopReads(comp: Component, ctx: Ctx, depth: nat, loops: seq<string>, test: Test)
    requires comp.kind == "ForEach" && Loop(comp, ctx, depth).Done?
    ensures Reads(Loop(comp, ctx, depth).tokens, loops, test, Bound(comp, loops, test), HasLoop(comp))
    decreases comp, |comp.children| + 1, 0
  {
    var (next, slot) := BindingSlot(comp.items.value.path, TString, ctx).value;
    var body := Node(comp.template.value, next, depth + 1).tokens;
    var enter, inner := [Enter(slot, IndexName(comp))], loops + [IndexName(comp)];
    NodeReads(comp.template.value, next, depth + 1, inner, test);
    assert enter[1..] == [] && [Leave][1..] == [] && inner[..|inner| - 1] == loops;
    ScanJoin(enter, body, loops, test);
    ScanJoin(enter + body, [Leave], loops, test);
    assert enter[0] in enter + body + [Leave];
  }

  // ---- Results ----

  /**
   Whatever names are tested for, the item names in the code generated for an accepted tree all pass exactly
   when the item names the tree shows do, each under the keys of the `ForEach`es around it.
   */
  lemma ItemNamesFollowTree(root: Component, uiMinor: nat, test: Test)
    requires RenderComponent(root, uiMinor).Done?
    ensures Scan(RenderComponent(root, uiMinor).tokens, [], test).Some? <==> Bound(root, [], test)
  {
    NodeReads(root, Fresh(uiMinor), 0, [], test);
  }

  /**
   A loop's array is declared as a string, so the code generated for an accepted tree uses every
   property at a fitting type exactly when it has no loop at all.
   */
  lemma LoopArraysAreStrings(root: Component, uiMinor: nat)
    requires RenderComponent(root, uiMinor).Done?
    ensures (forall t | t in RenderComponent(root, uiMinor).tokens :: WellTyped(t)) <==> !HasLoop(root)
  {
    var r := RenderComponent(root, uiMinor);
    NodeReads(root, Fresh(uiMinor), 0, [], (_, _) => true);
    TokensAreScoped(root, uiMinor);
    forall t | t in r.tokens
      ensures WellTyped(t) <==> !t.Enter?
    {
      assert InScope(r.ctx, t);
    }
  }
}
