/** Generated code is well scoped: what it refers to is declared, and what is declared is referred to. */
module RendererScope {
  import opened Prelude
  import opened RenderText
  import opened Renderer
  import Encoding

  // ---- Declarations ----

  predicate SlotOk(path: string, slot: Slot)
  {
    slot.path == path && Parse(path).Some? && slot.prop == PropName(Parse(path).value)
  }

  ghost predicate NamedBelow(callback: string, n: nat)
  {
    exists k: nat :: k < n && callback == CallbackName(k)
  }

  predicate SlotsOk(bindings: map<string, Slot>)
  {
    forall path | path in bindings :: SlotOk(path, bindings[path])
  }

  ghost predicate CallbacksOk(events: map<string, EventSlot>, counter: nat)
  {
    && (forall e | e in events :: events[e].event == e && NamedBelow(events[e].callback, counter))
    && (forall e, f | e in events && f in events && e != f :: events[e].callback != events[f].callback)
  }

  /** One slot a path, one callback an event, all callbacks different, both budgets kept. */
  ghost predicate Declared(ctx: Ctx)
  {
    && SlotsOk(ctx.bindings)
    && CallbacksOk(ctx.events, ctx.counter)
    && |ctx.bindings| <= MAX_BINDINGS
    && ctx.nodes <= MAX_NODES
  }

  /** `d` declares what `c` does, unchanged, and perhaps more. */
  predicate Extends(c: Ctx, d: Ctx)
  {
    && (forall path | path in c.bindings :: path in d.bindings && d.bindings[path] == c.bindings[path])
    && (forall e | e in c.events :: e in d.events && d.events[e] == c.events[e])
    && c.uiMinor == d.uiMinor
  }

  /** The slot or callback the token refers to is declared in `d`; a condition is Boolean, a loop array a string. */
  predicate InScope(d: Ctx, token: Token)
  {
    match token
    case PropRef(slot, at) => slot.path in d.bindings && d.bindings[slot.path] == slot && slot.valueType == at
    case Enter(slot, _) => slot.path in d.bindings && d.bindings[slot.path] == slot && slot.valueType.TString?
    case When(slot, _) => slot.path in d.bindings && d.bindings[slot.path] == slot && slot.valueType.TBoolean?
    case CallRef(target) => target.event in d.events && d.events[target.event] == target
    case Quoted(text) => EscapeAll(text).Some?
    case _ => true
  }

  predicate Scoped(d: Ctx, tokens: seq<Token>)
  {
    forall t | t in tokens :: InScope(d, t)
  }

  predicate Names(token: Token, slot: Slot)
  {
    (token.PropRef? || token.Enter? || token.When?) && token.slot == slot
  }

  predicate Mentions(tokens: seq<Token>, slot: Slot)
  {
    exists t | t in tokens :: Names(t, slot)
  }

  /** Every declaration of `d` that `c` lacks is referred to. */
  predicate Referred(c: Ctx, d: Ctx, tokens: seq<Token>)
  {
    && (forall path | path in d.bindings && path !in c.bindings :: Mentions(tokens, d.bindings[path]))
    && (forall e | e in d.events && e !in c.events :: CallRef(d.events[e]) in tokens)
  }

  ghost predicate Sound(c: Ctx, d: Ctx, tokens: seq<Token>)
  {
    Declared(d) && Extends(c, d) && Scoped(d, tokens) && Referred(c, d, tokens)
  }

  ghost predicate Good(c: Ctx, r: Rendered)
  {
    r.Done? ==> Sound(c, r.ctx, r.tokens)
  }

  /** `out` refers to what `s` and `t` refer to. */
  ghost predicate Merges(s: seq<Token>, t: seq<Token>, out: seq<Token>)
  {
    && (forall token | token in s || token in t :: token in out)
    && (forall token | token in out :: token in s || token in t || token.Window? || token.Leave?)
  }

  lemma Compose(c: Ctx, d: Ctx, e: Ctx, s: seq<Token>, t: seq<Token>, out: seq<Token>)
    requires Sound(c, d, s) && Sound(d, e, t) && Merges(s, t, out)
    ensures Sound(c, e, out)
  {
    forall token | token in out
      ensures InScope(e, token)
    {
      if token in s {
        assert InScope(d, token);
      }
    }
    forall path | path in e.bindings && path !in c.bindings
      ensures Mentions(out, e.bindings[path])
    {
      if path in d.bindings {
        assert Mentions(s, d.bindings[path]);
      } else {
        assert Mentions(t, e.bindings[path]);
      }
    }
    forall name | name in e.events && name !in c.events
      ensures CallRef(e.events[name]) in out
    {
      if name in d.events {
        assert CallRef(d.events[name]) in s;
      }
    }
  }

  // ---- Slots ----

  lemma NewSlotCount(path: string, slot: Slot, bindings: map<string, Slot>)
    requires path !in bindings
    ensures |bindings[path := slot]| == |bindings| + 1
  {
    assert bindings[path := slot].Keys == bindings.Keys + {path};
    assert |bindings[path := slot].Keys| == |bindings.Keys| + 1;
  }

  lemma NewSlotSlots(path: string, slot: Slot, bindings: map<string, Slot>)
    requires SlotsOk(bindings) && SlotOk(path, slot)
    ensures SlotsOk(bindings[path := slot])
  {
  }

  /** The slot is used at its type. */
  predicate Fitting(token: Token)
  {
    match token
    case PropRef(slot, at) => slot.valueType == at
    case Enter(slot, _) => slot.valueType.TString?
    case When(slot, _) => slot.valueType.TBoolean?
    case _ => false
  }

  lemma DeclaredSlotInScope(d: Ctx, slot: Slot, tokens: seq<Token>)
    requires slot.path in d.bindings && d.bindings[slot.path] == slot
    requires forall t | t in tokens :: Names(t, slot) && Fitting(t)
    ensures Scoped(d, tokens)
  {
  }

  lemma NewSlotReferred(path: string, slot: Slot, ctx: Ctx, tokens: seq<Token>)
    requires tokens != [] && Names(tokens[0], slot)
    ensures Referred(ctx, ctx.(bindings := ctx.bindings[path := slot]), tokens)
  {
    assert tokens[0] in tokens;
    assert Mentions(tokens, slot);
  }

  lemma NewSlotIsGood(path: string, slot: Slot, ctx: Ctx, tokens: seq<Token>)
    requires Declared(ctx) && path !in ctx.bindings && |ctx.bindings| < MAX_BINDINGS && SlotOk(path, slot)
    requires tokens != [] && forall t | t in tokens :: Names(t, slot) && Fitting(t)
    ensures Sound(ctx, ctx.(bindings := ctx.bindings[path := slot]), tokens)
  {
    var d := ctx.(bindings := ctx.bindings[path := slot]);
    NewSlotCount(path, slot, ctx.bindings);
    NewSlotSlots(path, slot, ctx.bindings);
    DeclaredSlotInScope(d, slot, tokens);
    NewSlotReferred(path, slot, ctx, tokens);
  }

  /** A slot just looked up or declared may be used at its type. */
  lemma SlotIsGood(path: string, valueType: ValueType, ctx: Ctx, tokens: seq<Token>)
    requires Declared(ctx) && BindingSlot(path, valueType, ctx).Ok?
    requires var slot := BindingSlot(path, valueType, ctx).value.1;
             tokens != [] && forall t | t in tokens :: Names(t, slot) && Fitting(t)
    ensures Sound(ctx, BindingSlot(path, valueType, ctx).value.0, tokens)
    ensures var slot := BindingSlot(path, valueType, ctx).value.1; slot.path == path && slot.valueType == valueType
  {
    if path !in ctx.bindings {
      NewSlotIsGood(path, BindingSlot(path, valueType, ctx).value.1, ctx, tokens);
    }
  }

  lemma StateRefIsGood(path: string, valueType: ValueType, ctx: Ctx)
    requires Declared(ctx)
    ensures Good(ctx, StateRef(path, valueType, ctx))
  {
    var r := StateRef(path, valueType, ctx);
    if r.Done? {
      assert BindingSlot(path, valueType, ctx).value.1.valueType == valueType;
      SlotIsGood(path, valueType, ctx, r.tokens);
    }
  }

  lemma CharsDetermineBytes(a: Encoding.Bytes, b: Encoding.Bytes)
    requires forall x | x in a :: 48 <= x < 58
    requires forall x | x in b :: 48 <= x < 58
    ensures Chars(a) == Chars(b) ==> a == b
  {
    if Chars(a) == Chars(b) {
      assert |a| == |Chars(a)| == |b|;
      forall i | 0 <= i < |a|
        ensures a[i] == b[i]
      {
        assert Chars(a)[i] == a[i] as char && Chars(b)[i] == b[i] as char;
      }
    }
  }

  lemma CallbackNamesDiffer(m: nat, n: nat)
    requires m != n
    ensures CallbackName(m) != CallbackName(n)
  {
    var a, b := Encoding.Decimal(m), Encoding.Decimal(n);
    Encoding.DecimalRoundTrip(m);
    Encoding.DecimalRoundTrip(n);
    assert a != b;
    CharsDetermineBytes(a, b);
    assert CallbackName(m)[5..] == Chars(a) && CallbackName(n)[5..] == Chars(b);
  }

  lemma NewCallback(event: string, events: map<string, EventSlot>, n: nat)
    requires CallbacksOk(events, n) && event !in events
    ensures CallbacksOk(events[event := EventSlot(event, CallbackName(n))], n + 1)
  {
    assert NamedBelow(CallbackName(n), n + 1) by {
      assert n < n + 1;
    }
    forall e | e in events
      ensures NamedBelow(events[e].callback, n + 1) && events[e].callback != CallbackName(n)
    {
      var k: nat :| k < n && events[e].callback == CallbackName(k);
      CallbackNamesDiffer(k, n);
    }
  }

  lemma NewCallbackIsGood(event: string, ctx: Ctx)
    requires Declared(ctx) && event !in ctx.events
    ensures var slot := EventSlot(event, CallbackName(ctx.counter));
      Sound(ctx, ctx.(events := ctx.events[event := slot], counter := ctx.counter + 1), [CallRef(slot)])
  {
    NewCallback(event, ctx.events, ctx.counter);
  }

  lemma HandlerIsGood(comp: Component, input: string, ctx: Ctx)
    requires Declared(ctx)
    ensures Good(ctx, Handler(comp, input, ctx))
  {
    var r := Handler(comp, input, ctx);
    if r.Done? {
      var event := comp.events[input];
      if event in ctx.events {
        assert r == Done(ctx, [CallRef(ctx.events[event])]);
      } else {
        NewCallbackIsGood(event, ctx);
      }
    }
  }

  // ---- Leaves ----

  lemma NothingUsed(ctx: Ctx, tokens: seq<Token>)
    requires Declared(ctx) && forall t | t in tokens :: t.LoopVar? || (t.Quoted? && EscapeAll(t.text).Some?)
    ensures Sound(ctx, ctx, tokens)
  {
  }

  lemma StringPropIsGood(comp: Component, prop: string, ctx: Ctx)
    requires Declared(ctx)
    ensures Good(ctx, StringProp(comp, prop, ctx))
  {
    var r := StringProp(comp, prop, ctx);
    if r.Done? {
      if comp.props[prop].State? {
        StateRefIsGood(comp.props[prop].path, TString, ctx);
      } else {
        assert r.ctx == ctx;
        NothingUsed(ctx, r.tokens);
      }
    }
  }

  lemma AccessibilityLabelIsGood(comp: Component, ctx: Ctx)
    requires Declared(ctx)
    ensures Good(ctx, AccessibilityLabel(comp, ctx))
  {
    StringPropIsGood(comp, "accessibilityLabel", ctx);
  }

  lemma {:induction false} QuoteAllIsGood(texts: seq<Literal>, ctx: Ctx)
    requires Declared(ctx)
    ensures Good(ctx, QuoteAll(texts, ctx))
    ensures QuoteAll(texts, ctx).Done? ==> QuoteAll(texts, ctx).ctx == ctx
  {
    if texts != [] {
      QuoteAllIsGood(texts[..|texts| - 1], ctx);
    }
  }

  lemma ButtonIsGood(comp: Component, ctx: Ctx)
    requires Declared(ctx)
    ensures Good(ctx, Button(comp, ctx))
  {
    var caption := StringProp(comp, "label", ctx);
    StringPropIsGood(comp, "label", ctx);
    if caption.Done? {
      var click := Handler(comp, "activate", caption.ctx);
      HandlerIsGood(comp, "activate", caption.ctx);
      if click.Done? {
        Compose(ctx, caption.ctx, click.ctx, caption.tokens, click.tokens, Button(comp, ctx).tokens);
      }
    }
  }

  lemma CheckedIsGood(comp: Component, ctx: Ctx)
    requires Declared(ctx)
    ensures Good(ctx, Checked(comp, ctx))
  {
    if "checked" in comp.props && comp.props["checked"].State? {
      StateRefIsGood(comp.props["checked"].path, TBoolean, ctx);
    }
  }

  lemma ToggleIsGood(comp: Component, ctx: Ctx)
    requires Declared(ctx)
    ensures Good(ctx, Toggle(comp, ctx))
  {
    var checked := Checked(comp, ctx);
    CheckedIsGood(comp, ctx);
    if checked.Done? {
      var caption := AccessibilityLabel(comp, checked.ctx);
      AccessibilityLabelIsGood(comp, checked.ctx);
      if caption.Done? {
        var both := checked.tokens + caption.tokens;
        Compose(ctx, checked.ctx, caption.ctx, checked.tokens, caption.tokens, both);
        var click := Handler(comp, "toggle", caption.ctx);
        HandlerIsGood(comp, "toggle", caption.ctx);
        if click.Done? {
          Compose(ctx, caption.ctx, click.ctx, both, click.tokens, Toggle(comp, ctx).tokens);
        }
      }
    }
  }

  lemma MeterIsGood(comp: Component, ctx: Ctx)
    requires Declared(ctx)
    ensures Good(ctx, Meter(comp, ctx))
  {
    var value := MeterValue(comp, ctx);
    if "value" in comp.props && comp.props["value"].State? {
      StateRefIsGood(comp.props["value"].path, TNumber, ctx);
    }
    if value.Done? {
      AccessibilityLabelIsGood(comp, value.ctx);
      var caption := AccessibilityLabel(comp, value.ctx);
      if caption.Done? {
        Compose(ctx, value.ctx, caption.ctx, value.tokens, caption.tokens, Meter(comp, ctx).tokens);
      }
    }
  }

  lemma SparklineIsGood(comp: Component, ctx: Ctx)
    requires Declared(ctx)
    ensures Good(ctx, Sparkline(comp, ctx))
  {
    var caption := SparklineLabel(comp, ctx);
    if "label" in comp.props && comp.props["label"].State? {
      StateRefIsGood(comp.props["label"].path, TString, ctx);
    }
    if caption.Done? {
      var bars := SparklineBars(comp, caption.ctx);
      if "values" in comp.props && comp.props["values"].State? {
        StateRefIsGood(comp.props["values"].path, TNumberList, caption.ctx);
      }
      if bars.Done? {
        Compose(ctx, caption.ctx, bars.ctx, caption.tokens, bars.tokens, Sparkline(comp, ctx).tokens);
      }
    }
  }

  lemma ListItemsIsGood(comp: Component, ctx: Ctx)
    requires Declared(ctx) && "items" in comp.props
    ensures Good(ctx, ListItems(comp, ctx))
  {
    match comp.props["items"]
    case State(path) => StateRefIsGood(path, TStringList, ctx);
    case Item(_) =>
    case Lit(literal) =>
      if literal.Array? {
        QuoteAllIsGood(literal.elements, ctx);
      }
  }

  // ---- The tree ----

  lemma CountedIsSound(ctx: Ctx, r: Rendered)
    requires Declared(ctx) && ctx.nodes < MAX_NODES && Good(ctx.(nodes := ctx.nodes + 1), r)
    ensures Good(ctx, r)
  {
  }

  lemma {:induction false} NodeIsGood(comp: Component, ctx0: Ctx, depth: nat)
    requires Declared(ctx0)
    ensures Good(ctx0, Node(comp, ctx0, depth))
    decreases comp, |comp.children| + 1
  {
    var ctx := ctx0.(nodes := ctx0.nodes + 1);
    if depth <= MAX_TREE_DEPTH && ctx.nodes <= MAX_NODES {
      assert Declared(ctx);
      if comp.kind in {"Column", "Row", "Stack", "Grid"} {
        ChildrenAreGood(comp, 0, ctx, depth);
      } else if comp.kind == "Responsive" {
        ResponsiveIsGood(comp, ctx, depth);
      } else if comp.kind == "List" {
        if "items" in comp.props {
          ListItemsIsGood(comp, ctx);
        } else {
          ChildrenAreGood(comp, 0, ctx, depth);
        }
      } else if comp.kind == "Sparkline" {
        SparklineIsGood(comp, ctx);
      } else if comp.kind == "Text" {
        StringPropIsGood(comp, "text", ctx);
      } else if comp.kind == "Button" {
        ButtonIsGood(comp, ctx);
      } else if comp.kind == "Toggle" {
        ToggleIsGood(comp, ctx);
      } else if comp.kind == "Progress" || comp.kind == "Gauge" {
        MeterIsGood(comp, ctx);
      } else if comp.kind == "Badge" {
        StringPropIsGood(comp, "label", ctx);
      } else if comp.kind == "If" {
        ConditionalIsGood(comp, ctx, depth);
      } else if comp.kind == "ForEach" {
        LoopIsGood(comp, ctx, depth);
      }
      assert Node(comp, ctx0, depth) == Body(comp, ctx, depth);
      CountedIsSound(ctx0, Node(comp, ctx0, depth));
    }
  }

  lemma {:induction false} ChildrenAreGood(comp: Component, i: nat, ctx: Ctx, depth: nat)
    requires Declared(ctx) && i <= |comp.children|
    ensures Good(ctx, Children(comp, i, ctx, depth))
    decreases comp, |comp.children| - i
  {
    if i < |comp.children| {
      var first := Node(comp.children[i], ctx, depth + 1);
      NodeIsGood(comp.children[i], ctx, depth + 1);
      if first.Done? {
        var rest := Children(comp, i + 1, first.ctx, depth);
        ChildrenAreGood(comp, i + 1, first.ctx, depth);
        if rest.Done? {
          Compose(ctx, first.ctx, rest.ctx, first.tokens, rest.tokens, first.tokens + rest.tokens);
        }
      }
    }
  }

  lemma {:induction false} ResponsiveIsGood(comp: Component, ctx: Ctx, depth: nat)
    requires Declared(ctx)
    ensures Good(ctx, Responsive(comp, ctx, depth))
    decreases comp, |comp.children| + 1, 0
  {
    var r, body := Responsive(comp, ctx, depth), Children(comp, 0, ctx, depth);
    ChildrenAreGood(comp, 0, ctx, depth);
    if r.Done? {
      NothingUsed(body.ctx, []);
      Compose(ctx, body.ctx, body.ctx, body.tokens, [], r.tokens);
    }
  }

  lemma {:induction false} ConditionalIsGood(comp: Component, ctx: Ctx, depth: nat)
    requires Declared(ctx)
    ensures Good(ctx, Conditional(comp, ctx, depth))
    decreases comp, |comp.children| + 1, 0
  {
    var r := Conditional(comp, ctx, depth);
    if r.Done? {
      var (next, slot) := BindingSlot(comp.when.value.path, TBoolean, ctx).value;
      var when := if comp.elseBranch.Some? then [When(slot, true), When(slot, false)] else [When(slot, true)];
      SlotIsGood(comp.when.value.path, TBoolean, ctx, when);
      var yes := Node(comp.thenBranch.value, next, depth + 1);
      NodeIsGood(comp.thenBranch.value, next, depth + 1);
      if comp.elseBranch.None? {
        Compose(ctx, next, yes.ctx, when, yes.tokens, r.tokens);
      } else {
        var both := [When(slot, true)] + yes.tokens + [When(slot, false)];
        Compose(ctx, next, yes.ctx, when, yes.tokens, both);
        var no := Node(comp.elseBranch.value, yes.ctx, depth + 1);
        NodeIsGood(comp.elseBranch.value, yes.ctx, depth + 1);
        assert r.tokens == both + no.tokens;
        Compose(ctx, yes.ctx, no.ctx, both, no.tokens, r.tokens);
      }
    }
  }

  lemma {:induction false} LoopIsGood(comp: Component, ctx: Ctx, depth: nat)
    requires Declared(ctx)
    ensures Good(ctx, Loop(comp, ctx, depth))
    decreases comp, |comp.children| + 1, 0
  {
    var r := Loop(comp, ctx, depth);
    if r.Done? {
      var (next, slot) := BindingSlot(comp.items.value.path, TString, ctx).value;
      var enter := [Enter(slot, IndexName(comp))];
      assert slot.valueType.TString?;
      SlotIsGood(comp.items.value.path, TString, ctx, enter);
      var body := Node(comp.template.value, next, depth + 1);
      NodeIsGood(comp.template.value, next, depth + 1);
      Compose(ctx, next, body.ctx, enter, body.tokens, r.tokens);
    }
  }

  // ---- Results ----

  /**
   For every tree the generator accepts: a property or callback the body refers to is declared, each value
   use at its declared type, and every declared slot and callback is referred to. Each path has one slot
   with one type and each event one callback of its own; the budgets hold; every quoted text is quotable.
   This is about tokens; module RendererNames says when the names in them are names in the text.
   */
  lemma TokensAreScoped(root: Component, uiMinor: nat)
    requires RenderComponent(root, uiMinor).Done?
    ensures var r := RenderComponent(root, uiMinor);
      && (forall t | t in r.tokens :: InScope(r.ctx, t))
      && (forall path | path in r.ctx.bindings ::
            SlotOk(path, r.ctx.bindings[path]) && Mentions(r.tokens, r.ctx.bindings[path]))
      && (forall e | e in r.ctx.events :: CallRef(r.ctx.events[e]) in r.tokens)
      && (forall e, f | e in r.ctx.events && f in r.ctx.events && e != f ::
            r.ctx.events[e].callback != r.ctx.events[f].callback)
      && |r.ctx.bindings| <= MAX_BINDINGS && r.ctx.nodes <= MAX_NODES
  {
    NodeIsGood(root, Fresh(uiMinor), 0);
  }

  lemma RootAndState(q: string)
    requires Parse(q).Some? && q != []
    ensures Parse(q).value == ["state"] <==> q == "$.state"
    ensures Parse(q).value == [] <==> q == "$"
  {
    StatePath();
    if Parse(q).value == ["state"] {
      ParseIsInjective(q, "$.state");
    }
    if Parse(q).value == [] {
      ParseIsInjective(q, "$");
    }
  }

  lemma StatePath()
    ensures Parse("$.state") == Some(["state"]) && Parse("$") == Some([])
  {
    assert "$.state" == "$." + "state";
    OneField("$.state", "state");
  }

  /**
   When no bound path has an underscore in a field name, two declared properties share a name only if they
   are the root and `$.state`.
   */
  lemma PropertyNamesAreDistinct(root: Component, uiMinor: nat, p: string, q: string)
    requires RenderComponent(root, uiMinor).Done?
    requires p in RenderComponent(root, uiMinor).ctx.bindings && q in RenderComponent(root, uiMinor).ctx.bindings
    requires Parse(p).Some? && UnderscoreFree(Parse(p).value)
    requires Parse(q).Some? && UnderscoreFree(Parse(q).value)
    ensures var bindings := RenderComponent(root, uiMinor).ctx.bindings;
      bindings[p].prop == bindings[q].prop <==>
      p == q || (p == "$" && q == "$.state") || (q == "$" && p == "$.state")
  {
    TokensAreScoped(root, uiMinor);
    NamesCollideOnlyAtState(Parse(p).value, Parse(q).value);
    RootAndState(p);
    RootAndState(q);
    if Parse(p) == Parse(q) {
      ParseIsInjective(p, q);
    }
  }
}
