/**
 Exactly which trees are accepted (crates/floatile-renderer/src/render.rs:59-160, 682-748, 751-793): every component has
 what its kind needs, every literal text can be quoted, each path is used at one type, and the budgets suffice.
 */
module RendererAccepts {
  import opened Prelude
  import opened RenderText
  import opened Renderer
  import opened RendererScope
  import opened RendererLoops
  import opened RendererOutline

  // ---- What each kind needs ----

  /** A literal may hold any character but a control character other than newline, return and tab. */
  predicate Quotable(text: string)
  {
    forall c | c in text :: Control(c) ==> c in "\n\r\t"
  }

  predicate TextLiteral(literal: Literal)
  {
    literal.Null? || (literal.Str? && Quotable(literal.text))
  }

  predicate Bindable(path: string)
  {
    Parse(path).Some?
  }

  /** The property is there and is a State binding, an item binding or a literal that can be written as text. */
  predicate StringOk(comp: Component, prop: string)
  {
    prop in comp.props &&
    match comp.props[prop]
    case State(path) => Bindable(path)
    case Item(_) => true
    case Lit(literal) => TextLiteral(literal)
  }

  predicate LabelOk(comp: Component, uiMinor: nat)
  {
    (uiMinor < 6 && "accessibilityLabel" !in comp.props) || StringOk(comp, "accessibilityLabel")
  }

  predicate CheckedOk(comp: Component)
  {
    "checked" in comp.props &&
    match comp.props["checked"]
    case State(path) => Bindable(path)
    case Item(_) => true
    case Lit(literal) => literal.Bool?
  }

  predicate MeterOk(comp: Component)
  {
    "value" in comp.props &&
    match comp.props["value"]
    case State(path) => Bindable(path)
    case Item(_) => false
    case Lit(literal) => literal.Num?
  }

  predicate SparkLabelOk(comp: Component)
  {
    "label" in comp.props &&
    match comp.props["label"]
    case State(path) => Bindable(path)
    case Item(_) => false
    case Lit(literal) => literal.Str? && Quotable(literal.text)
  }

  predicate BarsOk(comp: Component)
  {
    "values" in comp.props &&
    match comp.props["values"]
    case State(path) => Bindable(path)
    case Item(_) => false
    case Lit(literal) => literal.Array? && forall v | v in literal.elements :: v.Num?
  }

  predicate ItemsOk(comp: Component)
  {
    comp.children == [] && "items" in comp.props &&
    match comp.props["items"]
    case State(path) => Bindable(path)
    case Item(_) => false
    case Lit(literal) => literal.Array? && forall v | v in literal.elements :: v.Str? && Quotable(v.text)
  }

  predicate LeafOk(comp: Component, uiMinor: nat)
  {
    || (comp.kind == "Text" && StringOk(comp, "text"))
    || (comp.kind == "Badge" && StringOk(comp, "label"))
    || (comp.kind == "Button" && StringOk(comp, "label") && "activate" in comp.events)
    || (comp.kind == "Toggle" && CheckedOk(comp) && LabelOk(comp, uiMinor) && "toggle" in comp.events)
    || (comp.kind in {"Progress", "Gauge"} && MeterOk(comp) && LabelOk(comp, uiMinor))
    || (comp.kind == "Sparkline" && SparkLabelOk(comp) && BarsOk(comp))
    || (comp.kind == "List" && ItemsOk(comp))
  }

  predicate BranchOk(branch: Option<Component>, uiMinor: nat, depth: nat)
  {
    branch.Some? ==> TreeOk(branch.value, uiMinor, depth)
  }

  /** Every component of the part that becomes code has what it needs and is not too deep. */
  predicate TreeOk(comp: Component, uiMinor: nat, depth: nat)
    decreases comp, |comp.children| + 1
  {
    depth <= MAX_TREE_DEPTH &&
    if ShowsChildren(comp) then
      && (comp.kind == "Responsive" ==> "breakpoint" in comp.props && comp.props["breakpoint"] == Lit(Num))
      && ChildrenOk(comp, 0, uiMinor, depth)
    else if comp.kind == "If" then
      && comp.when.Some? && comp.when.value.State? && Bindable(comp.when.value.path)
      && comp.thenBranch.Some? && TreeOk(comp.thenBranch.value, uiMinor, depth + 1)
      && (comp.elseBranch.Some? ==> TreeOk(comp.elseBranch.value, uiMinor, depth + 1))
    else if comp.kind == "ForEach" then
      && comp.items.Some? && comp.items.value.State? && Bindable(comp.items.value.path)
      && comp.template.Some? && TreeOk(comp.template.value, uiMinor, depth + 1)
      && comp.key != Some("")
    else LeafOk(comp, uiMinor)
  }

  predicate ChildrenOk(comp: Component, i: nat, uiMinor: nat, depth: nat)
    requires i <= |comp.children|
    decreases comp, |comp.children| - i
  {
    i == |comp.children| ||
    (TreeOk(comp.children[i], uiMinor, depth + 1) && ChildrenOk(comp, i + 1, uiMinor, depth))
  }

  /** Components in the part that becomes code. */
  function Size(comp: Component): nat
    decreases comp, |comp.children| + 1
  {
    1 + if ShowsChildren(comp) then ChildSizes(comp, 0)
        else if comp.kind == "If" then
          (if comp.thenBranch.Some? then Size(comp.thenBranch.value) else 0) +
          (if comp.elseBranch.Some? then Size(comp.elseBranch.value) else 0)
        else if comp.kind == "ForEach" && comp.template.Some? then Size(comp.template.value)
        else 0
  }

  function ChildSizes(comp: Component, i: nat): nat
    requires i <= |comp.children|
    decreases comp, |comp.children| - i
  {
    if i == |comp.children| then 0 else Size(comp.children[i]) + ChildSizes(comp, i + 1)
  }

  // ---- One type for each path ----

  type Typing = set<(string, ValueType)>

  /** The type at which a path is used; a loop declares its array as a string. */
  function TypeUse(use: Use): Typing
  {
    match use
    case Value(path, at) => {(path, at)}
    case Condition(path, _) => {(path, TBoolean)}
    case Each(path, _) => {(path, TString)}
    case _ => {}
  }

  function Typings(uses: seq<Use>): Typing
  {
    set u, t | u in uses && t in TypeUse(u) :: t
  }

  /** Each path has one type, and there are not too many paths. */
  predicate Consistent(typing: Typing)
  {
    (forall s, t | s in typing && t in typing && s.0 == t.0 :: s == t) && |typing| <= MAX_BINDINGS
  }

  function TypesOf(ctx: Ctx): Typing
  {
    set path | path in ctx.bindings :: (path, ctx.bindings[path].valueType)
  }

  lemma {:induction false} SubsetSize<T>(a: set<T>, b: set<T>)
    requires a <= b
    ensures |a| <= |b|
  {
    if a != {} {
      var x :| x in a;
      SubsetSize(a - {x}, b - {x});
    }
  }

  lemma ConsistentPart(a: Typing, b: Typing)
    requires Consistent(a + b)
    ensures Consistent(a)
  {
    SubsetSize(a, a + b);
  }

  lemma {:induction false} TypesSize(bindings: map<string, Slot>)
    ensures |set path | path in bindings :: (path, bindings[path].valueType)| == |bindings|
  {
    var types := set path | path in bindings :: (path, bindings[path].valueType);
    if bindings.Keys == {} {
      assert |bindings.Keys| == 0;
      assert types == {};
    } else {
      var path :| path in bindings;
      var rest := bindings - {path};
      TypesSize(rest);
      assert rest.Keys == bindings.Keys - {path} && |bindings.Keys| == |rest.Keys| + 1;
      var fewer := set p | p in rest :: (p, rest[p].valueType);
      var held := (path, bindings[path].valueType);
      forall t
        ensures t in types <==> t in fewer || t == held
      {
        if t in types {
          assert t.0 in bindings && t == (t.0, bindings[t.0].valueType);
          assert t.0 != path ==> t.0 in rest && rest[t.0] == bindings[t.0];
        }
        if t in fewer {
          assert t.0 in rest && rest[t.0] == bindings[t.0];
        }
      }
      assert types == fewer + {held} && held !in fewer;
    }
  }

  lemma JoinTypings(a: seq<Use>, b: seq<Use>)
    ensures Typings(a + b) == Typings(a) + Typings(b)
  {
    assert forall u :: u in a + b <==> u in a || u in b;
  }

  lemma OneTyping(u: Use)
    ensures Typings([u]) == TypeUse(u) && Typings([]) == {}
  {
    assert u in [u];
  }

  // ---- Outcomes ----

  /** The part is generated exactly when this holds, and adds this to the context. */
  ghost predicate Yields(ctx: Ctx, r: Rendered, ok: bool, size: nat, typing: Typing)
  {
    && (r.Done? <==> ok && ctx.nodes + size <= MAX_NODES && Consistent(TypesOf(ctx) + typing))
    && (r.Done? ==>
          && Declared(r.ctx) && TypesOf(r.ctx) == TypesOf(ctx) + typing
          && r.ctx.nodes == ctx.nodes + size && r.ctx.uiMinor == ctx.uiMinor)
  }

  lemma YieldsBoth(ctx: Ctx, a: Rendered, b: Rendered, r: Rendered,
                   okA: bool, okB: bool, sizeA: nat, sizeB: nat, typingA: Typing, typingB: Typing)
    requires Yields(ctx, a, okA, sizeA, typingA)
    requires a.Done? ==> Yields(a.ctx, b, okB, sizeB, typingB)
    requires if a.Done? && b.Done? then r.Done? && r.ctx == b.ctx else r.Failed?
    ensures Yields(ctx, r, okA && okB, sizeA + sizeB, typingA + typingB)
  {
    var all := TypesOf(ctx) + (typingA + typingB);
    assert all == TypesOf(ctx) + typingA + typingB;
    if Consistent(all) {
      ConsistentPart(TypesOf(ctx) + typingA, typingB);
    }
  }

  /** Nothing is looked up. */
  lemma YieldsHere(ctx: Ctx, r: Rendered, ok: bool)
    requires Declared(ctx) && Consistent(TypesOf(ctx))
    requires if ok then r.Done? && r.ctx == ctx else r.Failed?
    ensures Yields(ctx, r, ok, 0, {})
  {
    assert TypesOf(ctx) + {} == TypesOf(ctx);
  }

  lemma DeclaredIsConsistent(ctx: Ctx)
    requires Declared(ctx)
    ensures Consistent(TypesOf(ctx))
  {
    TypesSize(ctx.bindings);
  }

  lemma UsedPath(path: string, valueType: ValueType, ctx: Ctx)
    requires Declared(ctx) && path in ctx.bindings
    ensures Consistent(TypesOf(ctx) + {(path, valueType)}) <==> ctx.bindings[path].valueType == valueType
    ensures ctx.bindings[path].valueType == valueType ==> TypesOf(ctx) + {(path, valueType)} == TypesOf(ctx)
  {
    var types, held, use := TypesOf(ctx), (path, ctx.bindings[path].valueType), (path, valueType);
    DeclaredIsConsistent(ctx);
    assert held in types;
    if held == use {
      assert types + {use} == types;
    } else {
      assert held in types + {use} && use in types + {use} && held.0 == use.0;
    }
  }

  lemma OneMore(typing: Typing, use: (string, ValueType))
    requires Consistent(typing) && forall t | t in typing :: t.0 != use.0
    ensures Consistent(typing + {use}) <==> |typing| < MAX_BINDINGS
  {
    assert use !in typing;
    assert |typing + {use}| == |typing| + 1;
  }

  lemma NewPath(path: string, valueType: ValueType, ctx: Ctx)
    requires Declared(ctx) && path !in ctx.bindings
    ensures Consistent(TypesOf(ctx) + {(path, valueType)}) <==> |ctx.bindings| < MAX_BINDINGS
  {
    TypesSize(ctx.bindings);
    DeclaredIsConsistent(ctx);
    OneMore(TypesOf(ctx), (path, valueType));
  }

  lemma SlotOutcome(path: string, valueType: ValueType, ctx: Ctx)
    requires Declared(ctx)
    ensures BindingSlot(path, valueType, ctx).Ok? <==>
            Bindable(path) && Consistent(TypesOf(ctx) + {(path, valueType)})
    ensures BindingSlot(path, valueType, ctx).Ok? ==>
              var next := BindingSlot(path, valueType, ctx).value.0;
              && Declared(next) && TypesOf(next) == TypesOf(ctx) + {(path, valueType)}
              && next.nodes == ctx.nodes && next.uiMinor == ctx.uiMinor
  {
    if path in ctx.bindings {
      UsedPath(path, valueType, ctx);
    } else {
      NewPath(path, valueType, ctx);
      if Bindable(path) && |ctx.bindings| < MAX_BINDINGS {
        NewSlotTypes(path, valueType, ctx);
      }
    }
  }

  lemma NewSlotTypes(path: string, valueType: ValueType, ctx: Ctx)
    requires Declared(ctx) && Bindable(path) && path !in ctx.bindings && |ctx.bindings| < MAX_BINDINGS
    ensures var slot := Slot(path, PropName(Parse(path).value), valueType);
      var next := ctx.(bindings := ctx.bindings[path := slot]);
      Declared(next) && TypesOf(next) == TypesOf(ctx) + {(path, valueType)}
  {
    var slot := Slot(path, PropName(Parse(path).value), valueType);
    var next := ctx.(bindings := ctx.bindings[path := slot]);
    NewSlotCount(path, slot, ctx.bindings);
    NewSlotSlots(path, slot, ctx.bindings);
    forall t
      ensures t in TypesOf(next) <==> t in TypesOf(ctx) || t == (path, valueType)
    {
      if t in TypesOf(ctx) {
        assert next.bindings[t.0] == ctx.bindings[t.0];
      }
    }
  }

  lemma StateRefYields(path: string, valueType: ValueType, ctx: Ctx)
    requires Declared(ctx)
    ensures Yields(ctx, StateRef(path, valueType, ctx), Bindable(path), 0, {(path, valueType)})
  {
    SlotOutcome(path, valueType, ctx);
  }

  lemma QuoteYields(text: string, ctx: Ctx)
    requires Declared(ctx)
    ensures Yields(ctx, Quote(text, ctx), Quotable(text), 0, {})
  {
    QuotableIsEscaped(text);
    DeclaredIsConsistent(ctx);
    YieldsHere(ctx, Quote(text, ctx), Quotable(text));
  }

  lemma QuotableIsEscaped(text: string)
    ensures EscapeAll(text).Some? <==> Quotable(text)
  {
    RefusedIffControl(text);
    if !Quotable(text) {
      var c :| c in text && Control(c) && c !in "\n\r\t";
      var i :| 0 <= i < |text| && text[i] == c;
      assert Control(text[i]) && text[i] !in "\n\r\t";
    }
  }

  lemma StringPropYields(comp: Component, prop: string, ctx: Ctx)
    requires Declared(ctx)
    ensures Yields(ctx, StringProp(comp, prop, ctx), StringOk(comp, prop), 0, Typings(StringUse(comp, prop)))
  {
    DeclaredIsConsistent(ctx);
    if prop !in comp.props {
      OneTyping(EndLoop);
      YieldsHere(ctx, StringProp(comp, prop, ctx), false);
    } else {
      match comp.props[prop]
      case State(path) =>
        OneTyping(Value(path, TString));
        StateRefYields(path, TString, ctx);
      case Item(name) =>
        OneTyping(Shown(name));
        YieldsHere(ctx, StringProp(comp, prop, ctx), true);
      case Lit(literal) => LiteralYields(literal, ctx);
    }
  }

  lemma LiteralYields(literal: Literal, ctx: Ctx)
    requires Declared(ctx)
    ensures Yields(ctx, QuoteScalar(literal, ctx), TextLiteral(literal), 0, Typings(LiteralText(literal)))
  {
    DeclaredIsConsistent(ctx);
    LiteralTypings(literal);
    if literal.Str? || literal.Null? {
      QuoteYields(if literal.Str? then literal.text else "", ctx);
    } else {
      YieldsHere(ctx, QuoteScalar(literal, ctx), false);
    }
  }

  /** Texts bind no path. */
  lemma LiteralTypings(literal: Literal)
    ensures Typings(LiteralText(literal)) == {}
  {
  }

  lemma LabelYields(comp: Component, ctx: Ctx)
    requires Declared(ctx) && Quotable(comp.kind)
    ensures Yields(ctx, AccessibilityLabel(comp, ctx), LabelOk(comp, ctx.uiMinor), 0,
                   Typings(LabelUse(comp, ctx.uiMinor)))
  {
    if ctx.uiMinor < 6 && "accessibilityLabel" !in comp.props {
      OneTyping(Text(comp.kind));
      QuoteYields(comp.kind, ctx);
    } else {
      StringPropYields(comp, "accessibilityLabel", ctx);
    }
  }

  /** An event slot is always found or made; what counts is that the component declares the event. */
  lemma HandlerYields(comp: Component, input: string, ctx: Ctx)
    requires Declared(ctx)
    ensures Yields(ctx, Handler(comp, input, ctx), input in comp.events, 0, Typings(EventUse(comp, input)))
  {
    HandlerIsGood(comp, input, ctx);
    HandlerSlots(comp, input, ctx);
    DeclaredIsConsistent(ctx);
    NoTypings(EventUse(comp, input));
    SameTypesYield(ctx, Handler(comp, input, ctx), input in comp.events);
  }

  lemma HandlerSlots(comp: Component, input: string, ctx: Ctx)
    ensures var r := Handler(comp, input, ctx);
      && (r.Done? <==> input in comp.events)
      && (r.Done? ==> r.ctx.bindings == ctx.bindings && r.ctx.nodes == ctx.nodes && r.ctx.uiMinor == ctx.uiMinor)
  {
  }

  lemma SameTypesYield(ctx: Ctx, r: Rendered, ok: bool)
    requires Declared(ctx) && Consistent(TypesOf(ctx))
    requires r.Done? <==> ok
    requires r.Done? ==>
               && Declared(r.ctx) && r.ctx.bindings == ctx.bindings
               && r.ctx.nodes == ctx.nodes && r.ctx.uiMinor == ctx.uiMinor
    ensures Yields(ctx, r, ok, 0, {})
  {
    assert TypesOf(ctx) + {} == TypesOf(ctx);
    if r.Done? {
      assert TypesOf(r.ctx) == TypesOf(ctx);
    }
  }

  // ---- Leaves ----

  lemma Twice(a: seq<Use>, b: seq<Use>, c: seq<Use>)
    ensures Typings(a + b + b + c) == Typings(a) + Typings(b) + Typings(c)
    ensures Typings(a + b + b) == Typings(a) + Typings(b)
    ensures Typings(b + b + c) == Typings(b) + Typings(c)
  {
    JoinTypings(a, b);
    JoinTypings(a + b, b);
    JoinTypings(a + b + b, c);
    JoinTypings(b, b);
    JoinTypings(b + b, c);
  }

  lemma ButtonYields(comp: Component, ctx: Ctx)
    requires Declared(ctx)
    ensures Yields(ctx, Button(comp, ctx), StringOk(comp, "label") && "activate" in comp.events, 0,
                   Typings(StringUse(comp, "label")) + Typings(EventUse(comp, "activate")))
  {
    var caption := StringProp(comp, "label", ctx);
    var click := if caption.Done? then Handler(comp, "activate", caption.ctx) else caption;
    StringPropYields(comp, "label", ctx);
    if caption.Done? {
      HandlerYields(comp, "activate", caption.ctx);
    }
    YieldsBoth(ctx, caption, click, Button(comp, ctx), StringOk(comp, "label"), "activate" in comp.events, 0, 0,
               Typings(StringUse(comp, "label")), Typings(EventUse(comp, "activate")));
  }

  lemma CheckedYields(comp: Component, ctx: Ctx)
    requires Declared(ctx)
    ensures Yields(ctx, Checked(comp, ctx), CheckedOk(comp), 0, Typings(OtherUse(comp, "checked", TBoolean)))
  {
    DeclaredIsConsistent(ctx);
    OneTyping(EndLoop);
    if "checked" in comp.props && comp.props["checked"].State? {
      OneTyping(Value(comp.props["checked"].path, TBoolean));
      StateRefYields(comp.props["checked"].path, TBoolean, ctx);
    } else {
      assert Typings(OtherUse(comp, "checked", TBoolean)) == {};
      YieldsHere(ctx, Checked(comp, ctx), CheckedOk(comp));
    }
  }

  lemma KindsAreQuotable()
    ensures Quotable("Toggle") && Quotable("Progress") && Quotable("Gauge")
  {
  }

  lemma YieldsInTurn(ctx: Ctx, a: Rendered, b: Rendered, c: Rendered, r: Rendered, okA: bool, okB: bool, okC: bool,
                     sizeB: nat, sizeC: nat, typingA: Typing, typingB: Typing, typingC: Typing)
    requires Yields(ctx, a, okA, 0, typingA)
    requires a.Done? ==> Yields(a.ctx, b, okB, sizeB, typingB)
    requires a.Done? && b.Done? ==> Yields(b.ctx, c, okC, sizeC, typingC)
    requires if a.Done? && b.Done? && c.Done? then r.Done? && r.ctx == c.ctx else r.Failed?
    ensures Yields(ctx, r, okA && okB && okC, sizeB + sizeC, typingA + typingB + typingC)
  {
    var both := if a.Done? && b.Done? then Done(b.ctx, []) else Failed(BindingError);
    YieldsBoth(ctx, a, b, both, okA, okB, 0, sizeB, typingA, typingB);
    YieldsBoth(ctx, both, c, r, okA && okB, okC, sizeB, sizeC, typingA + typingB, typingC);
  }

  lemma ToggleYields(comp: Component, ctx: Ctx)
    requires Declared(ctx) && comp.kind == "Toggle"
    ensures Yields(ctx, Toggle(comp, ctx), CheckedOk(comp) && LabelOk(comp, ctx.uiMinor) && "toggle" in comp.events, 0,
                   Typings(OtherUse(comp, "checked", TBoolean)) + Typings(LabelUse(comp, ctx.uiMinor)) +
                   Typings(EventUse(comp, "toggle")))
  {
    var checked := Checked(comp, ctx);
    var caption := if checked.Done? then AccessibilityLabel(comp, checked.ctx) else checked;
    var click := if caption.Done? then Handler(comp, "toggle", caption.ctx) else caption;
    KindsAreQuotable();
    CheckedYields(comp, ctx);
    if checked.Done? {
      LabelYields(comp, checked.ctx);
      if caption.Done? {
        HandlerYields(comp, "toggle", caption.ctx);
      }
    }
    YieldsInTurn(ctx, checked, caption, click, Toggle(comp, ctx),
                 CheckedOk(comp), LabelOk(comp, ctx.uiMinor), "toggle" in comp.events, 0, 0,
                 Typings(OtherUse(comp, "checked", TBoolean)), Typings(LabelUse(comp, ctx.uiMinor)),
                 Typings(EventUse(comp, "toggle")));
  }

  lemma MeterValueYields(comp: Component, ctx: Ctx)
    requires Declared(ctx)
    ensures Yields(ctx, MeterValue(comp, ctx), MeterOk(comp), 0,
                   if MeterOk(comp) then Typings(OtherUse(comp, "value", TNumber)) else {})
  {
    DeclaredIsConsistent(ctx);
    OneTyping(EndLoop);
    if "value" in comp.props && comp.props["value"].State? {
      var path := comp.props["value"].path;
      OneTyping(Value(path, TNumber));
      SlotOutcome(path, TNumber, ctx);
      if !Bindable(path) {
        YieldsHere(ctx, MeterValue(comp, ctx), false);
      }
    } else {
      YieldsHere(ctx, MeterValue(comp, ctx), MeterOk(comp));
    }
  }

  lemma MeterYields(comp: Component, ctx: Ctx)
    requires Declared(ctx) && (comp.kind == "Progress" || comp.kind == "Gauge")
    ensures Yields(ctx, Meter(comp, ctx), MeterOk(comp) && LabelOk(comp, ctx.uiMinor), 0,
                   (if MeterOk(comp) then Typings(OtherUse(comp, "value", TNumber)) else {}) +
                   Typings(LabelUse(comp, ctx.uiMinor)))
  {
    var value := MeterValue(comp, ctx);
    var caption := if value.Done? then AccessibilityLabel(comp, value.ctx) else value;
    KindsAreQuotable();
    MeterValueYields(comp, ctx);
    if value.Done? {
      LabelYields(comp, value.ctx);
    }
    YieldsBoth(ctx, value, caption, Meter(comp, ctx), MeterOk(comp), LabelOk(comp, ctx.uiMinor), 0, 0,
               if MeterOk(comp) then Typings(OtherUse(comp, "value", TNumber)) else {},
               Typings(LabelUse(comp, ctx.uiMinor)));
  }

  lemma TextYields(text: string, ctx: Ctx)
    requires Declared(ctx)
    ensures Yields(ctx, Quote(text, ctx), Quotable(text), 0, Typings([Text(text)]))
  {
    OneTyping(Text(text));
    QuoteYields(text, ctx);
  }

  lemma PathYields(path: string, at: ValueType, ctx: Ctx)
    requires Declared(ctx)
    ensures Yields(ctx, StateRef(path, at, ctx), Bindable(path), 0, Typings([Value(path, at)]))
  {
    OneTyping(Value(path, at));
    StateRefYields(path, at, ctx);
  }

  /** A property refused where it stands, or fixed without a text, binds nothing. */
  lemma NothingYields(ctx: Ctx, r: Rendered, ok: bool, uses: seq<Use>)
    requires Declared(ctx) && forall u | u in uses :: TypeUse(u) == {}
    requires if ok then r.Done? && r.ctx == ctx else r.Failed?
    ensures Yields(ctx, r, ok, 0, Typings(uses))
  {
    DeclaredIsConsistent(ctx);
    NoTypings(uses);
    YieldsHere(ctx, r, ok);
  }

  lemma SparkLabelYields(comp: Component, ctx: Ctx)
    requires Declared(ctx)
    ensures Yields(ctx, SparklineLabel(comp, ctx), SparkLabelOk(comp), 0, Typings(StringUse(comp, "label")))
  {
    if "label" !in comp.props {
      NothingYields(ctx, SparklineLabel(comp, ctx), false, []);
    } else {
      match comp.props["label"]
      case State(path) => PathYields(path, TString, ctx);
      case Item(name) => NothingYields(ctx, SparklineLabel(comp, ctx), false, [Shown(name)]);
      case Lit(literal) =>
        if literal.Str? {
          TextYields(literal.text, ctx);
        } else {
          NothingYields(ctx, SparklineLabel(comp, ctx), false, LiteralText(literal));
        }
    }
  }

  lemma NoTypings(uses: seq<Use>)
    requires forall u | u in uses :: TypeUse(u) == {}
    ensures Typings(uses) == {}
  {
  }

  lemma BarsYields(comp: Component, ctx: Ctx)
    requires Declared(ctx)
    ensures Yields(ctx, SparklineBars(comp, ctx), BarsOk(comp), 0, Typings(OtherUse(comp, "values", TNumberList)))
  {
    if "values" in comp.props && comp.props["values"].State? {
      PathYields(comp.props["values"].path, TNumberList, ctx);
    } else {
      NothingYields(ctx, SparklineBars(comp, ctx), BarsOk(comp), OtherUse(comp, "values", TNumberList));
    }
  }

  lemma SparklineYields(comp: Component, ctx: Ctx)
    requires Declared(ctx)
    ensures Yields(ctx, Sparkline(comp, ctx), SparkLabelOk(comp) && BarsOk(comp), 0,
                   Typings(StringUse(comp, "label")) + Typings(OtherUse(comp, "values", TNumberList)))
  {
    var caption := SparklineLabel(comp, ctx);
    var bars := if caption.Done? then SparklineBars(comp, caption.ctx) else caption;
    SparkLabelYields(comp, ctx);
    if caption.Done? {
      BarsYields(comp, caption.ctx);
    }
    YieldsBoth(ctx, caption, bars, Sparkline(comp, ctx), SparkLabelOk(comp), BarsOk(comp), 0, 0,
               Typings(StringUse(comp, "label")), Typings(OtherUse(comp, "values", TNumberList)));
  }

  lemma {:induction false} QuoteAllYields(texts: seq<Literal>, ctx: Ctx)
    requires Declared(ctx)
    ensures QuoteAll(texts, ctx).Done? <==> forall v | v in texts :: v.Str? && Quotable(v.text)
    ensures QuoteAll(texts, ctx).Done? ==> QuoteAll(texts, ctx).ctx == ctx
    ensures Typings(Texts(texts)) == {}
  {
    if texts == [] {
      OneTyping(EndLoop);
    } else {
      var n := |texts| - 1;
      QuoteAllYields(texts[..n], ctx);
      assert forall v :: v in texts <==> v in texts[..n] || v == texts[n];
      if texts[n].Str? {
        QuotableIsEscaped(texts[n].text);
      }
      LiteralTypings(texts[n]);
      JoinTypings(Texts(texts[..n]), LiteralText(texts[n]));
    }
  }

  lemma ItemsYields(comp: Component, ctx: Ctx)
    requires Declared(ctx) && "items" in comp.props
    ensures Yields(ctx, ListItems(comp, ctx), ItemsOk(comp), 0,
                   if ItemsOk(comp) then Typings(ItemsUse(comp)) else {})
  {
    DeclaredIsConsistent(ctx);
    if comp.children == [] && comp.props["items"].State? {
      var path := comp.props["items"].path;
      OneTyping(Value(path, TStringList));
      SlotOutcome(path, TStringList, ctx);
      if !Bindable(path) {
        YieldsHere(ctx, ListItems(comp, ctx), false);
      }
    } else {
      if comp.props["items"].Lit? && comp.props["items"].literal.Array? {
        QuoteAllYields(comp.props["items"].literal.elements, ctx);
      }
      YieldsHere(ctx, ListItems(comp, ctx), ItemsOk(comp));
    }
  }

  /** Where nothing is generated, what would be used does not matter. */
  lemma NotYielded(ctx: Ctx, r: Rendered, ok: bool, size: nat, typing: Typing, other: Typing)
    requires Yields(ctx, r, ok, size, typing) && (ok ==> typing == other)
    ensures Yields(ctx, r, ok, size, other)
  {
  }

  ghost predicate YieldsLeaf(comp: Component, ctx: Ctx, r: Rendered)
  {
    Yields(ctx, r, LeafOk(comp, ctx.uiMinor), 0, Typings(LeafOutline(comp, ctx.uiMinor)))
  }

  lemma ListLeaf(comp: Component, ctx: Ctx)
    requires Declared(ctx) && comp.kind == "List" && "items" in comp.props
    ensures YieldsLeaf(comp, ctx, ListItems(comp, ctx))
  {
    ItemsYields(comp, ctx);
    NotYielded(ctx, ListItems(comp, ctx), ItemsOk(comp), 0,
               if ItemsOk(comp) then Typings(ItemsUse(comp)) else {}, Typings(ItemsUse(comp)));
    assert LeafOk(comp, ctx.uiMinor) <==> ItemsOk(comp);
  }

  lemma SparklineTypings(comp: Component, uiMinor: nat)
    requires comp.kind == "Sparkline"
    ensures LeafOk(comp, uiMinor) <==> SparkLabelOk(comp) && BarsOk(comp)
    ensures Typings(LeafOutline(comp, uiMinor)) ==
            Typings(StringUse(comp, "label")) + Typings(OtherUse(comp, "values", TNumberList))
  {
    JoinTypings(StringUse(comp, "label"), OtherUse(comp, "values", TNumberList));
  }

  lemma SparklineLeaf(comp: Component, ctx: Ctx)
    requires Declared(ctx) && comp.kind == "Sparkline"
    ensures YieldsLeaf(comp, ctx, Sparkline(comp, ctx))
  {
    SparklineYields(comp, ctx);
    SparklineTypings(comp, ctx.uiMinor);
  }

  lemma TextLeaf(comp: Component, ctx: Ctx)
    requires Declared(ctx) && (comp.kind == "Text" || comp.kind == "Badge")
    ensures YieldsLeaf(comp, ctx, StringProp(comp, if comp.kind == "Text" then "text" else "label", ctx))
  {
    StringPropYields(comp, if comp.kind == "Text" then "text" else "label", ctx);
  }

  lemma ButtonLeaf(comp: Component, ctx: Ctx)
    requires Declared(ctx) && comp.kind == "Button"
    ensures YieldsLeaf(comp, ctx, Button(comp, ctx))
  {
    ButtonYields(comp, ctx);
    Twice([], StringUse(comp, "label"), EventUse(comp, "activate"));
    assert LeafOk(comp, ctx.uiMinor) <==> StringOk(comp, "label") && "activate" in comp.events;
  }

  lemma ToggleLeaf(comp: Component, ctx: Ctx)
    requires Declared(ctx) && comp.kind == "Toggle"
    ensures YieldsLeaf(comp, ctx, Toggle(comp, ctx))
  {
    ToggleYields(comp, ctx);
    var box, caption := OtherUse(comp, "checked", TBoolean), LabelUse(comp, ctx.uiMinor);
    Twice(caption, box, EventUse(comp, "toggle"));
    assert Typings(caption) + Typings(box) == Typings(box) + Typings(caption);
    assert LeafOk(comp, ctx.uiMinor) <==> CheckedOk(comp) && LabelOk(comp, ctx.uiMinor) && "toggle" in comp.events;
  }

  lemma MeterTypings(comp: Component, uiMinor: nat)
    requires comp.kind == "Progress" || comp.kind == "Gauge"
    ensures LeafOk(comp, uiMinor) <==> MeterOk(comp) && LabelOk(comp, uiMinor)
    ensures Typings(LeafOutline(comp, uiMinor)) ==
            Typings(OtherUse(comp, "value", TNumber)) + Typings(LabelUse(comp, uiMinor))
  {
    Twice(LabelUse(comp, uiMinor), OtherUse(comp, "value", TNumber), []);
    assert LeafOutline(comp, uiMinor) ==
           LabelUse(comp, uiMinor) + OtherUse(comp, "value", TNumber) + OtherUse(comp, "value", TNumber);
  }

  lemma MeterLeaf(comp: Component, ctx: Ctx)
    requires Declared(ctx) && (comp.kind == "Progress" || comp.kind == "Gauge")
    ensures YieldsLeaf(comp, ctx, Meter(comp, ctx))
  {
    MeterYields(comp, ctx);
    MeterTypings(comp, ctx.uiMinor);
    var value, caption := Typings(OtherUse(comp, "value", TNumber)), Typings(LabelUse(comp, ctx.uiMinor));
    NotYielded(ctx, Meter(comp, ctx), MeterOk(comp) && LabelOk(comp, ctx.uiMinor), 0,
               (if MeterOk(comp) then value else {}) + caption, value + caption);
  }

  // ---- The tree ----

  lemma YieldsCounted(ctx: Ctx, r: Rendered, depth: nat, ok: bool, size: nat, typing: Typing)
    requires Declared(ctx) && (ctx.nodes < MAX_NODES ==> Yields(ctx.(nodes := ctx.nodes + 1), r, ok, size, typing))
    requires ctx.nodes >= MAX_NODES ==> r.Failed?
    ensures Yields(ctx, r, ok, 1 + size, typing)
  {
    assert TypesOf(ctx.(nodes := ctx.nodes + 1)) == TypesOf(ctx);
  }

  ghost predicate YieldsTree(comp: Component, ctx: Ctx, depth: nat, r: Rendered)
  {
    Yields(ctx, r, TreeOk(comp, ctx.uiMinor, depth), Size(comp), Typings(Outline(comp, ctx.uiMinor)))
  }

  /** The part of `Node` behind its budget checks. */
  ghost predicate YieldsBody(comp: Component, ctx: Ctx, depth: nat, r: Rendered)
  {
    Yields(ctx, r, TreeOk(comp, ctx.uiMinor, depth), Size(comp) - 1, Typings(Outline(comp, ctx.uiMinor)))
  }

  lemma {:induction false} NodeYields(comp: Component, ctx0: Ctx, depth: nat)
    requires Declared(ctx0)
    ensures YieldsTree(comp, ctx0, depth, Node(comp, ctx0, depth))
    decreases comp, |comp.children| + 1
  {
    var ctx := ctx0.(nodes := ctx0.nodes + 1);
    var r := Node(comp, ctx0, depth);
    if depth <= MAX_TREE_DEPTH && ctx.nodes <= MAX_NODES {
      assert Declared(ctx);
      BodyYields(comp, ctx, depth);
      assert r == Body(comp, ctx, depth);
    }
    if depth > MAX_TREE_DEPTH {
      assert r.Failed? && !TreeOk(comp, ctx0.uiMinor, depth);
    } else {
      YieldsCounted(ctx0, r, depth, TreeOk(comp, ctx0.uiMinor, depth), Size(comp) - 1,
          Typings(Outline(comp, ctx0.uiMinor)));
    }
  }

  /** What makes a container, by kind. */
  lemma ContainerShape(comp: Component, uiMinor: nat, depth: nat)
    requires ShowsChildren(comp) && depth <= MAX_TREE_DEPTH
    ensures Size(comp) == 1 + ChildSizes(comp, 0)
    ensures TreeOk(comp, uiMinor, depth) <==>
            && (comp.kind == "Responsive" ==> "breakpoint" in comp.props && comp.props["breakpoint"] == Lit(Num))
            && ChildrenOk(comp, 0, uiMinor, depth)
    ensures Typings(Outline(comp, uiMinor)) == Typings(ChildOutlines(comp, 0, uiMinor))
  {
    var body := ChildOutlines(comp, 0, uiMinor);
    if comp.kind == "Responsive" {
      NoTypings([Width(true)]);
      NoTypings([Width(false)]);
      JoinTypings([Width(true)], body);
      JoinTypings([Width(true)] + body, [Width(false)]);
      JoinTypings([Width(true)] + body + [Width(false)], body);
    }
  }

  lemma ContainerYields(comp: Component, ctx: Ctx, depth: nat, body: Rendered)
    requires Declared(ctx) && ShowsChildren(comp) && depth <= MAX_TREE_DEPTH && body == Children(comp, 0, ctx, depth)
    requires Yields(ctx, body, ChildrenOk(comp, 0, ctx.uiMinor, depth), ChildSizes(comp, 0),
                    Typings(ChildOutlines(comp, 0, ctx.uiMinor)))
    ensures YieldsBody(comp, ctx, depth, Body(comp, ctx, depth))
  {
    ContainerShape(comp, ctx.uiMinor, depth);
    ContainerBody(comp, ctx, depth);
  }

  lemma ContainerBody(comp: Component, ctx: Ctx, depth: nat)
    requires ShowsChildren(comp)
    ensures var r, body := Body(comp, ctx, depth), Children(comp, 0, ctx, depth);
      && (r.Done? <==>
            (body.Done? && (comp.kind == "Responsive" ==>
               "breakpoint" in comp.props && comp.props["breakpoint"] == Lit(Num))))
      && (r.Done? ==> r.ctx == body.ctx)
  {
  }

  lemma {:induction false} BodyYields(comp: Component, ctx: Ctx, depth: nat)
    requires Declared(ctx) && depth <= MAX_TREE_DEPTH
    ensures YieldsBody(comp, ctx, depth, Body(comp, ctx, depth))
    decreases comp, |comp.children| + 1, 3
  {
    if ShowsChildren(comp) {
      ChildrenYield(comp, 0, ctx, depth);
      ContainerYields(comp, ctx, depth, Children(comp, 0, ctx, depth));
    } else if comp.kind == "If" {
      ConditionalYields(comp, ctx, depth);
    } else if comp.kind == "ForEach" {
      LoopYields(comp, ctx, depth);
    } else {
      LeafBodyYields(comp, ctx, depth);
    }
  }

  lemma LeafBodyYields(comp: Component, ctx: Ctx, depth: nat)
    requires Declared(ctx) && depth <= MAX_TREE_DEPTH
    requires !ShowsChildren(comp) && comp.kind != "If" && comp.kind != "ForEach"
    ensures YieldsBody(comp, ctx, depth, Body(comp, ctx, depth))
  {
    assert Size(comp) == 1 && Outline(comp, ctx.uiMinor) == LeafOutline(comp, ctx.uiMinor);
    assert TreeOk(comp, ctx.uiMinor, depth) <==> LeafOk(comp, ctx.uiMinor);
    if comp.kind == "List" {
      ListLeaf(comp, ctx);
    } else if comp.kind == "Sparkline" {
      SparklineLeaf(comp, ctx);
    } else if comp.kind == "Text" || comp.kind == "Badge" {
      TextLeaf(comp, ctx);
    } else if comp.kind == "Button" {
      ButtonLeaf(comp, ctx);
    } else if comp.kind == "Toggle" {
      ToggleLeaf(comp, ctx);
    } else if comp.kind == "Progress" || comp.kind == "Gauge" {
      MeterLeaf(comp, ctx);
    } else {
      DeclaredIsConsistent(ctx);
      NoTypings([]);
      YieldsHere(ctx, Body(comp, ctx, depth), false);
    }
  }

  lemma {:induction false} ChildrenYield(comp: Component, i: nat, ctx: Ctx, depth: nat)
    requires Declared(ctx) && i <= |comp.children|
    ensures Yields(ctx, Children(comp, i, ctx, depth), ChildrenOk(comp, i, ctx.uiMinor, depth), ChildSizes(comp, i),
                   Typings(ChildOutlines(comp, i, ctx.uiMinor)))
    decreases comp, |comp.children| - i
  {
    if i == |comp.children| {
      DeclaredIsConsistent(ctx);
      NoTypings([]);
      YieldsHere(ctx, Children(comp, i, ctx, depth), true);
    } else {
      var child := comp.children[i];
      var first := Node(child, ctx, depth + 1);
      NodeYields(child, ctx, depth + 1);
      var rest := if first.Done? then Children(comp, i + 1, first.ctx, depth) else first;
      if first.Done? {
        ChildrenYield(comp, i + 1, first.ctx, depth);
      }
      YieldsBoth(ctx, first, rest, Children(comp, i, ctx, depth),
                 TreeOk(child, ctx.uiMinor, depth + 1), ChildrenOk(comp, i + 1, ctx.uiMinor, depth),
                 Size(child), ChildSizes(comp, i + 1),
                 Typings(Outline(child, ctx.uiMinor)), Typings(ChildOutlines(comp, i + 1, ctx.uiMinor)));
      JoinTypings(Outline(child, ctx.uiMinor), ChildOutlines(comp, i + 1, ctx.uiMinor));
    }
  }

  lemma BranchYields(branch: Component, ctx: Ctx, depth: nat)
    requires Declared(ctx)
    ensures Yields(ctx, Node(branch, ctx, depth), TreeOk(branch, ctx.uiMinor, depth), Size(branch),
                   Typings(BranchOutline(Some(branch), ctx.uiMinor)))
    decreases branch, |branch.children| + 2
  {
    NodeYields(branch, ctx, depth);
  }

  /** The slot of a condition or a loop, as a step of its own. */
  function SlotStep(path: string, valueType: ValueType, ctx: Ctx): Rendered
  {
    match BindingSlot(path, valueType, ctx)
    case Ok((next, _)) => Done(next, [])
    case Err(error) => Failed(error)
  }

  lemma SlotYields(path: string, valueType: ValueType, ctx: Ctx)
    requires Declared(ctx)
    ensures Yields(ctx, SlotStep(path, valueType, ctx), Bindable(path), 0, {(path, valueType)})
  {
    SlotOutcome(path, valueType, ctx);
  }

  lemma FailsHere(ctx: Ctx, r: Rendered, size: nat, typing: Typing)
    requires r.Failed?
    ensures Yields(ctx, r, false, size, typing)
  {
  }

  /** What makes a conditional. */
  lemma IfShape(comp: Component, uiMinor: nat, depth: nat, path: string)
    requires comp.kind == "If" && depth <= MAX_TREE_DEPTH
    requires comp.when == Some(State(path)) && comp.thenBranch.Some?
    ensures TreeOk(comp, uiMinor, depth) <==>
            && Bindable(path) && TreeOk(comp.thenBranch.value, uiMinor, depth + 1)
            && BranchOk(comp.elseBranch, uiMinor, depth + 1)
    ensures Size(comp) == 1 + Size(comp.thenBranch.value) + BranchSize(comp.elseBranch)
    ensures Typings(Outline(comp, uiMinor)) ==
            {(path, TBoolean)} + Typings(BranchOutline(comp.thenBranch, uiMinor)) +
            Typings(BranchOutline(comp.elseBranch, uiMinor))
  {
    NestedOutline(comp, uiMinor, path);
    IfTypings(path, BranchOutline(comp.thenBranch, uiMinor), BranchOutline(comp.elseBranch, uiMinor));
    NoTypings([]);
  }

  lemma IfTypings(path: string, yes: seq<Use>, no: seq<Use>)
    ensures Typings([Condition(path, true)] + yes + []) == {(path, TBoolean)} + Typings(yes)
    ensures Typings([Condition(path, true)] + yes + ([Condition(path, false)] + no)) ==
            {(path, TBoolean)} + Typings(yes) + Typings(no)
  {
    OneTyping(Condition(path, true));
    OneTyping(Condition(path, false));
    JoinTypings([Condition(path, true)], yes);
    JoinTypings([Condition(path, false)], no);
    JoinTypings([Condition(path, true)] + yes, [Condition(path, false)] + no);
    JoinTypings([Condition(path, true)] + yes, []);
  }

  function BranchSize(branch: Option<Component>): nat
  {
    if branch.Some? then Size(branch.value) else 0
  }

  predicate IfComplete(comp: Component)
  {
    comp.kind == "If" && comp.when.Some? && comp.when.value.State? && comp.thenBranch.Some?
  }

  /** The steps of a conditional: its slot, its branch, and the other branch if it has one. */
  function IfSlot(comp: Component, ctx: Ctx): Rendered
    requires IfComplete(comp)
  {
    SlotStep(comp.when.value.path, TBoolean, ctx)
  }

  function IfYes(comp: Component, ctx: Ctx, depth: nat): Rendered
    requires IfComplete(comp)
  {
    var slot :- IfSlot(comp, ctx);
    Node(comp.thenBranch.value, slot.ctx, depth + 1)
  }

  function IfNo(comp: Component, ctx: Ctx, depth: nat): Rendered
    requires IfComplete(comp)
  {
    var yes :- IfYes(comp, ctx, depth);
    if comp.elseBranch.Some? then Node(comp.elseBranch.value, yes.ctx, depth + 1) else yes
  }

  ghost predicate YieldsYes(comp: Component, ctx: Ctx, slot: Rendered, yes: Rendered, depth: nat)
    requires IfComplete(comp)
  {
    slot.Done? ==>
      Yields(slot.ctx, yes, TreeOk(comp.thenBranch.value, ctx.uiMinor, depth + 1), Size(comp.thenBranch.value),
             Typings(BranchOutline(comp.thenBranch, ctx.uiMinor)))
  }

  ghost predicate YieldsNo(comp: Component, ctx: Ctx, yes: Rendered, no: Rendered, depth: nat)
  {
    yes.Done? ==>
      Yields(yes.ctx, no, BranchOk(comp.elseBranch, ctx.uiMinor, depth + 1), BranchSize(comp.elseBranch),
             Typings(BranchOutline(comp.elseBranch, ctx.uiMinor)))
  }

  ghost predicate IfParts(comp: Component, ctx: Ctx, slot: Rendered, yes: Rendered, no: Rendered, depth: nat)
    requires IfComplete(comp)
  {
    && Yields(ctx, slot, Bindable(comp.when.value.path), 0, {(comp.when.value.path, TBoolean)})
    && YieldsYes(comp, ctx, slot, yes, depth)
    && YieldsNo(comp, ctx, yes, no, depth)
  }

  lemma {:induction false} YesYields(comp: Component, ctx: Ctx, slot: Rendered, depth: nat)
    requires IfComplete(comp)
    requires slot.Done? && Declared(slot.ctx) && slot.ctx.uiMinor == ctx.uiMinor
    ensures YieldsYes(comp, ctx, slot, Node(comp.thenBranch.value, slot.ctx, depth + 1), depth)
    decreases comp, |comp.children| + 1, 0
  {
    BranchYields(comp.thenBranch.value, slot.ctx, depth + 1);
  }

  lemma {:induction false} NoYields(comp: Component, ctx: Ctx, yes: Rendered, depth: nat)
    requires comp.kind == "If" && yes.Done? && Declared(yes.ctx) && yes.ctx.uiMinor == ctx.uiMinor
    ensures YieldsNo(comp, ctx, yes,
                     if comp.elseBranch.Some? then Node(comp.elseBranch.value, yes.ctx, depth + 1) else yes, depth)
    decreases comp, |comp.children| + 1, 0
  {
    if comp.elseBranch.Some? {
      BranchYields(comp.elseBranch.value, yes.ctx, depth + 1);
    } else {
      NoElseYields(yes.ctx, yes);
    }
  }

  lemma {:induction false} PartsYield(comp: Component, ctx: Ctx, depth: nat)
    requires Declared(ctx) && IfComplete(comp)
    ensures IfParts(comp, ctx, IfSlot(comp, ctx), IfYes(comp, ctx, depth), IfNo(comp, ctx, depth), depth)
    decreases comp, |comp.children| + 1, 1
  {
    SlotYields(comp.when.value.path, TBoolean, ctx);
    var slot, yes := IfSlot(comp, ctx), IfYes(comp, ctx, depth);
    if slot.Done? {
      YesYields(comp, ctx, slot, depth);
      if yes.Done? {
        NoYields(comp, ctx, yes, depth);
      }
    }
  }

  lemma NoElseYields(ctx: Ctx, r: Rendered)
    requires Declared(ctx) && r.Done? && r.ctx == ctx
    ensures Yields(ctx, r, true, 0, Typings([]))
  {
    DeclaredIsConsistent(ctx);
    NoTypings([]);
    YieldsHere(ctx, r, true);
  }

  lemma IfBody(comp: Component, ctx: Ctx, depth: nat)
    requires IfComplete(comp)
    ensures var slot, yes, no, r := IfSlot(comp, ctx), IfYes(comp, ctx, depth), IfNo(comp, ctx, depth),
        Body(comp, ctx, depth);
      if slot.Done? && yes.Done? && no.Done? then r.Done? && r.ctx == no.ctx else r.Failed?
  {
  }

  lemma IfYields(comp: Component, ctx: Ctx, depth: nat, slot: Rendered, yes: Rendered, no: Rendered, r: Rendered)
    requires Declared(ctx) && IfComplete(comp) && depth <= MAX_TREE_DEPTH
    requires IfParts(comp, ctx, slot, yes, no, depth)
    requires if slot.Done? && yes.Done? && no.Done? then r.Done? && r.ctx == no.ctx else r.Failed?
    ensures YieldsBody(comp, ctx, depth, r)
  {
    var path, minor := comp.when.value.path, ctx.uiMinor;
    YieldsInTurn(ctx, slot, yes, no, r,
                 Bindable(path), TreeOk(comp.thenBranch.value, minor, depth + 1),
                 BranchOk(comp.elseBranch, minor, depth + 1),
                 Size(comp.thenBranch.value), BranchSize(comp.elseBranch),
                 {(path, TBoolean)}, Typings(BranchOutline(comp.thenBranch, minor)),
                 Typings(BranchOutline(comp.elseBranch, minor)));
    IfShape(comp, minor, depth, path);
  }

  lemma {:induction false} ConditionalYields(comp: Component, ctx: Ctx, depth: nat)
    requires Declared(ctx) && comp.kind == "If" && depth <= MAX_TREE_DEPTH
    ensures YieldsBody(comp, ctx, depth, Body(comp, ctx, depth))
    decreases comp, |comp.children| + 1, 2
  {
    if IfComplete(comp) {
      PartsYield(comp, ctx, depth);
      IfBody(comp, ctx, depth);
      IfYields(comp, ctx, depth, IfSlot(comp, ctx), IfYes(comp, ctx, depth), IfNo(comp, ctx, depth),
          Body(comp, ctx, depth));
    } else {
      IncompleteIf(comp, ctx, depth);
      FailsHere(ctx, Body(comp, ctx, depth), Size(comp) - 1, Typings(Outline(comp, ctx.uiMinor)));
    }
  }

  lemma IncompleteIf(comp: Component, ctx: Ctx, depth: nat)
    requires comp.kind == "If" && !IfComplete(comp)
    ensures Body(comp, ctx, depth).Failed? && !TreeOk(comp, ctx.uiMinor, depth)
  {
  }

  lemma IncompleteLoop(comp: Component, ctx: Ctx, depth: nat)
    requires comp.kind == "ForEach" && !LoopComplete(comp)
    ensures Body(comp, ctx, depth).Failed? && !TreeOk(comp, ctx.uiMinor, depth)
  {
  }

  /** What makes a loop. */
  lemma LoopShape(comp: Component, uiMinor: nat, depth: nat, path: string)
    requires comp.kind == "ForEach" && depth <= MAX_TREE_DEPTH && IndexName(comp) != ""
    requires comp.items == Some(State(path)) && comp.template.Some?
    ensures TreeOk(comp, uiMinor, depth) <==> Bindable(path) && TreeOk(comp.template.value, uiMinor, depth + 1)
    ensures Size(comp) == 1 + Size(comp.template.value)
    ensures Typings(Outline(comp, uiMinor)) == {(path, TString)} + Typings(BranchOutline(comp.template, uiMinor))
  {
    NestedOutline(comp, uiMinor, path);
    LoopTypings(path, IndexName(comp), BranchOutline(comp.template, uiMinor));
  }

  lemma LoopTypings(path: string, key: string, body: seq<Use>)
    ensures Typings([Each(path, key)] + body + [EndLoop]) == {(path, TString)} + Typings(body)
  {
    OneTyping(Each(path, key));
    OneTyping(EndLoop);
    JoinTypings([Each(path, key)], body);
    JoinTypings([Each(path, key)] + body, [EndLoop]);
  }

  predicate LoopComplete(comp: Component)
  {
    && comp.kind == "ForEach" && comp.items.Some? && comp.items.value.State? && comp.template.Some?
    && IndexName(comp) != ""
  }

  function LoopSlot(comp: Component, ctx: Ctx): Rendered
    requires LoopComplete(comp)
  {
    SlotStep(comp.items.value.path, TString, ctx)
  }

  function LoopTemplate(comp: Component, ctx: Ctx, depth: nat): Rendered
    requires LoopComplete(comp)
  {
    var slot :- LoopSlot(comp, ctx);
    Node(comp.template.value, slot.ctx, depth + 1)
  }

  lemma LoopBody(comp: Component, ctx: Ctx, depth: nat)
    requires LoopComplete(comp)
    ensures var slot, body, r := LoopSlot(comp, ctx), LoopTemplate(comp, ctx, depth), Body(comp, ctx, depth);
      if slot.Done? && body.Done? then r.Done? && r.ctx == body.ctx else r.Failed?
  {
  }

  ghost predicate LoopParts(comp: Component, ctx: Ctx, slot: Rendered, body: Rendered, depth: nat)
    requires LoopComplete(comp)
  {
    && Yields(ctx, slot, Bindable(comp.items.value.path), 0, {(comp.items.value.path, TString)})
    && (slot.Done? ==>
          Yields(slot.ctx, body, TreeOk(comp.template.value, ctx.uiMinor, depth + 1), Size(comp.template.value),
                 Typings(BranchOutline(comp.template, ctx.uiMinor))))
  }

  lemma {:induction false} LoopPartsYield(comp: Component, ctx: Ctx, depth: nat)
    requires Declared(ctx) && LoopComplete(comp)
    ensures LoopParts(comp, ctx, LoopSlot(comp, ctx), LoopTemplate(comp, ctx, depth), depth)
    decreases comp, |comp.children| + 1, 0
  {
    SlotYields(comp.items.value.path, TString, ctx);
    var slot := LoopSlot(comp, ctx);
    if slot.Done? {
      BranchYields(comp.template.value, slot.ctx, depth + 1);
    }
  }

  lemma LoopPartsMake(comp: Component, ctx: Ctx, depth: nat, slot: Rendered, body: Rendered, r: Rendered)
    requires Declared(ctx) && LoopComplete(comp) && depth <= MAX_TREE_DEPTH
    requires LoopParts(comp, ctx, slot, body, depth)
    requires if slot.Done? && body.Done? then r.Done? && r.ctx == body.ctx else r.Failed?
    ensures YieldsBody(comp, ctx, depth, r)
  {
    var path, minor := comp.items.value.path, ctx.uiMinor;
    YieldsBoth(ctx, slot, body, r, Bindable(path), TreeOk(comp.template.value, minor, depth + 1),
               0, Size(comp.template.value), {(path, TString)}, Typings(BranchOutline(comp.template, minor)));
    LoopShape(comp, minor, depth, path);
  }

  lemma {:induction false} LoopYields(comp: Component, ctx: Ctx, depth: nat)
    requires Declared(ctx) && comp.kind == "ForEach" && depth <= MAX_TREE_DEPTH
    ensures YieldsBody(comp, ctx, depth, Body(comp, ctx, depth))
    decreases comp, |comp.children| + 1, 1
  {
    if LoopComplete(comp) {
      LoopPartsYield(comp, ctx, depth);
      LoopBody(comp, ctx, depth);
      LoopPartsMake(comp, ctx, depth, LoopSlot(comp, ctx), LoopTemplate(comp, ctx, depth), Body(comp, ctx, depth));
    } else {
      IncompleteLoop(comp, ctx, depth);
      FailsHere(ctx, Body(comp, ctx, depth), Size(comp) - 1, Typings(Outline(comp, ctx.uiMinor)));
    }
  }

  // ---- Results ----

  /**
   A tree is accepted exactly when every component has what its kind needs and is at most 32 deep, there are at most 256
   components, and the paths it binds are at most 512 and each is used at one type.
   */
  lemma AcceptedIff(root: Component, uiMinor: nat)
    ensures RenderComponent(root, uiMinor).Done? <==>
            TreeOk(root, uiMinor, 0) && Size(root) <= MAX_NODES && Consistent(Typings(Outline(root, uiMinor)))
  {
    NodeYields(root, Fresh(uiMinor), 0);
    assert TypesOf(Fresh(uiMinor)) == {};
    assert {} + Typings(Outline(root, uiMinor)) == Typings(Outline(root, uiMinor));
  }
}
