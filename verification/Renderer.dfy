/**
 Code generation for plugin UI trees (crates/floatile-renderer/src/render.rs:59-160, 163-338, 356-388, 415-746).

 Of the generated text only what refers to something is kept, as tokens: references to declared
 properties and callbacks, string literals, and loop variables. Fixed markup, numbers and styles say
 nothing about scoping and are dropped; so are the checks of style properties, which only refuse more trees.
 */
module Renderer {
  import opened Prelude
  import opened RenderText
  import Encoding

  const MAX_NODES: nat := 256
  const MAX_TREE_DEPTH: nat := 32
  const MAX_BINDINGS: nat := 512

  datatype ValueType = TString | TBoolean | TNumber | TStringList | TNumberList

  datatype Literal = Str(text: string) | Bool(b: bool) | Num | Null | Array(elements: seq<Literal>) | Object

  datatype PropValue = State(path: string) | Item(name: string) | Lit(literal: Literal)

  /** `when` and `items` must be State bindings; `events` maps input events to emitted ones. */
  datatype Component = Component(
    kind: string,
    props: map<string, PropValue>,
    children: seq<Component>,
    events: map<string, string>,
    when: Option<PropValue>,
    thenBranch: Option<Component>,
    elseBranch: Option<Component>,
    items: Option<PropValue>,
    key: Option<string>,
    template: Option<Component>)

  datatype Slot = Slot(path: string, prop: string, valueType: ValueType)

  datatype EventSlot = EventSlot(event: string, callback: string)

  datatype Ctx = Ctx(bindings: map<string, Slot>, events: map<string, EventSlot>, nodes: nat, counter: nat,
      uiMinor: nat)

  /**
   `root.<prop>` used as a value of a type, `root.<callback>()`, a literal, a bare loop name, the conditions
   `if root.<prop>` and `if !root.<prop>`, those on the built-in `root.width` (below the breakpoint or not), and the
   braces of `for item[<index>] in root.<prop>`, which iterates over the property.
   */
  datatype Token =
    | PropRef(slot: Slot, at: ValueType)
    | CallRef(target: EventSlot)
    | Quoted(text: string)
    | LoopVar(name: string)
    | When(slot: Slot, holds: bool)
    | Window(narrow: bool)
    | Enter(slot: Slot, index: string)
    | Leave

  datatype Error = BudgetExceeded | BindingError | UnsupportedComponent | EncodeError

  datatype Rendered = Done(ctx: Ctx, tokens: seq<Token>) | Failed(error: Error) {
    predicate IsFailure() { Failed? }
    function PropagateFailure(): Rendered requires IsFailure() { this }
    function Extract(): Rendered requires !IsFailure() { this }
  }

  // ---- Slots ----

  function BindingSlot(path: string, valueType: ValueType, ctx: Ctx): Result<(Ctx, Slot), Error>
  {
    if Parse(path).None? then Err(BindingError)
    else if path in ctx.bindings then
      if ctx.bindings[path].valueType != valueType then Err(BindingError) else Ok((ctx, ctx.bindings[path]))
    else if |ctx.bindings| >= MAX_BINDINGS then Err(BudgetExceeded)
    else
      var slot := Slot(path, PropName(Parse(path).value), valueType);
      Ok((ctx.(bindings := ctx.bindings[path := slot]), slot))
  }

  function Chars(bytes: Encoding.Bytes): string
    requires forall b | b in bytes :: 48 <= b < 58
  {
    seq(|bytes|, i requires 0 <= i < |bytes| => bytes[i] as char)
  }

  function CallbackName(n: nat): string
  {
    "emit_" + Chars(Encoding.Decimal(n))
  }

  function EventCallback(comp: Component, input: string, ctx: Ctx): Result<(Ctx, EventSlot), Error>
  {
    if input !in comp.events then Err(BindingError)
    else
      var event := comp.events[input];
      if event in ctx.events then Ok((ctx, ctx.events[event]))
      else
        var slot := EventSlot(event, CallbackName(ctx.counter));
        Ok((ctx.(events := ctx.events[event := slot], counter := ctx.counter + 1), slot))
  }

  // ---- One property ----

  function StateRef(path: string, valueType: ValueType, ctx: Ctx): Rendered
  {
    match BindingSlot(path, valueType, ctx)
    case Ok((next, slot)) => Done(next, [PropRef(slot, valueType)])
    case Err(error) => Failed(error)
  }

  /** `event_callback` and the `clicked` handler that calls it. */
  function Handler(comp: Component, input: string, ctx: Ctx): Rendered
  {
    match EventCallback(comp, input, ctx)
    case Ok((next, slot)) => Done(next, [CallRef(slot)])
    case Err(error) => Failed(error)
  }

  /** `encode_string`. */
  function Quote(text: string, ctx: Ctx): Rendered
  {
    if EscapeAll(text).Some? then Done(ctx, [Quoted(text)]) else Failed(EncodeError)
  }

  /** `value_to_string` and `encode_string`. */
  function QuoteScalar(literal: Literal, ctx: Ctx): Rendered
  {
    match literal
    case Str(text) => Quote(text, ctx)
    case Null => Quote("", ctx)
    case _ => Failed(EncodeError)
  }

  /** A string property: a State binding, a loop item or a literal. */
  function StringProp(comp: Component, prop: string, ctx: Ctx): Rendered
  {
    if prop !in comp.props then Failed(BindingError)
    else match comp.props[prop]
      case State(path) => StateRef(path, TString, ctx)
      case Item(name) => Done(ctx, [LoopVar(name)])
      case Lit(literal) => QuoteScalar(literal, ctx)
  }

  function AccessibilityLabel(comp: Component, ctx: Ctx): Rendered
  {
    if ctx.uiMinor < 6 && "accessibilityLabel" !in comp.props then Quote(comp.kind, ctx)
    else StringProp(comp, "accessibilityLabel", ctx)
  }

  function QuoteAll(texts: seq<Literal>, ctx: Ctx): Rendered
  {
    if texts == [] then Done(ctx, [])
    else
      var n := |texts| - 1;
      var init :- QuoteAll(texts[..n], ctx);
      if !texts[n].Str? then Failed(BindingError)
      else
        var last :- Quote(texts[n].text, ctx);
        Done(ctx, init.tokens + last.tokens)
  }

  // ---- Leaf components ----

  function Button(comp: Component, ctx: Ctx): Rendered
  {
    var caption :- StringProp(comp, "label", ctx);
    var click :- Handler(comp, "activate", caption.ctx);
    Done(click.ctx, caption.tokens + caption.tokens + click.tokens)
  }

  function Checked(comp: Component, ctx: Ctx): Rendered
  {
    if "checked" !in comp.props then Failed(BindingError)
    else match comp.props["checked"]
      case State(path) => StateRef(path, TBoolean, ctx)
      case Item(name) => Done(ctx, [LoopVar(name)])
      case Lit(literal) => if literal.Bool? then Done(ctx, []) else Failed(BindingError)
  }

  function Toggle(comp: Component, ctx: Ctx): Rendered
  {
    var checked :- Checked(comp, ctx);
    var caption :- AccessibilityLabel(comp, checked.ctx);
    var click :- Handler(comp, "toggle", caption.ctx);
    Done(click.ctx, caption.tokens + checked.tokens + checked.tokens + click.tokens)
  }

  function MeterValue(comp: Component, ctx: Ctx): Rendered
  {
    if "value" !in comp.props then Failed(BindingError)
    else match comp.props["value"]
      case State(path) => StateRef(path, TNumber, ctx)
      case Item(_) => Failed(BindingError)
      case Lit(literal) => if literal.Num? then Done(ctx, []) else Failed(BindingError)
  }

  function Meter(comp: Component, ctx: Ctx): Rendered
  {
    var value :- MeterValue(comp, ctx);
    var caption :- AccessibilityLabel(comp, value.ctx);
    Done(caption.ctx, caption.tokens + value.tokens + value.tokens)
  }

  function SparklineLabel(comp: Component, ctx: Ctx): Rendered
  {
    if "label" !in comp.props then Failed(BindingError)
    else match comp.props["label"]
      case State(path) => StateRef(path, TString, ctx)
      case Item(_) => Failed(BindingError)
      case Lit(literal) => if literal.Str? then Quote(literal.text, ctx) else Failed(BindingError)
  }

  function SparklineBars(comp: Component, ctx: Ctx): Rendered
  {
    if "values" !in comp.props then Failed(BindingError)
    else match comp.props["values"]
      case State(path) => StateRef(path, TNumberList, ctx)
      case Item(_) => Failed(BindingError)
      case Lit(literal) =>
        if literal.Array? && forall v | v in literal.elements :: v.Num? then Done(ctx, []) else Failed(BindingError)
  }

  function Sparkline(comp: Component, ctx: Ctx): Rendered
  {
    var caption :- SparklineLabel(comp, ctx);
    var bars :- SparklineBars(comp, caption.ctx);
    Done(bars.ctx, caption.tokens + bars.tokens)
  }

  function ListItems(comp: Component, ctx: Ctx): Rendered
    requires "items" in comp.props
  {
    if comp.children != [] then Failed(BindingError)
    else match comp.props["items"]
      case State(path) => StateRef(path, TStringList, ctx)
      case Item(_) => Failed(BindingError)
      case Lit(literal) => if literal.Array? then QuoteAll(literal.elements, ctx) else Failed(BindingError)
  }

  // ---- The tree ----

  /** `render_node`. */
  function Node(comp: Component, ctx0: Ctx, depth: nat): Rendered
    decreases comp, |comp.children| + 1
  {
    var ctx := ctx0.(nodes := ctx0.nodes + 1);
    if depth > MAX_TREE_DEPTH then Failed(BudgetExceeded)
    else if ctx.nodes > MAX_NODES then Failed(BudgetExceeded)
    else if |ctx.bindings| > MAX_BINDINGS then Failed(BudgetExceeded)
    else Body(comp, ctx, depth)
  }

  /** `render_node` behind its budget checks: the kinds it maps. */
  function Body(comp: Component, ctx: Ctx, depth: nat): Rendered
    decreases comp, |comp.children| + 1, 1
  {
    if comp.kind in {"Column", "Row", "Stack", "Grid"} then Children(comp, 0, ctx, depth)
    else if comp.kind == "Responsive" then Responsive(comp, ctx, depth)
    else if comp.kind == "List" then
      if "items" in comp.props then ListItems(comp, ctx) else Children(comp, 0, ctx, depth)
    else if comp.kind == "Sparkline" then Sparkline(comp, ctx)
    else if comp.kind == "Text" then StringProp(comp, "text", ctx)
    else if comp.kind == "Button" then Button(comp, ctx)
    else if comp.kind == "Toggle" then Toggle(comp, ctx)
    else if comp.kind == "Progress" || comp.kind == "Gauge" then Meter(comp, ctx)
    else if comp.kind == "Badge" then StringProp(comp, "label", ctx)
    else if comp.kind == "If" then Conditional(comp, ctx, depth)
    else if comp.kind == "ForEach" then Loop(comp, ctx, depth)
    else Failed(UnsupportedComponent)
  }

  function Children(comp: Component, i: nat, ctx: Ctx, depth: nat): Rendered
    requires i <= |comp.children|
    decreases comp, |comp.children| - i
  {
    if i == |comp.children| then Done(ctx, [])
    else
      var first :- Node(comp.children[i], ctx, depth + 1);
      var rest :- Children(comp, i + 1, first.ctx, depth);
      Done(rest.ctx, first.tokens + rest.tokens)
  }

  /** Both layouts repeat the same children, one for narrow and one for wide windows. */
  function Responsive(comp: Component, ctx: Ctx, depth: nat): Rendered
    decreases comp, |comp.children| + 1, 0
  {
    if !("breakpoint" in comp.props && comp.props["breakpoint"] == Lit(Num)) then Failed(BindingError)
    else
      var body :- Children(comp, 0, ctx, depth);
      Done(body.ctx, [Window(true)] + body.tokens + [Window(false)] + body.tokens)
  }

  function Conditional(comp: Component, ctx: Ctx, depth: nat): Rendered
    decreases comp, |comp.children| + 1, 0
  {
    if !(comp.when.Some? && comp.when.value.State?) then Failed(BindingError)
    else
      match BindingSlot(comp.when.value.path, TBoolean, ctx)
      case Err(error) => Failed(error)
      case Ok((next, slot)) =>
        if comp.thenBranch.None? then Failed(BindingError)
        else
          var yes :- Node(comp.thenBranch.value, next, depth + 1);
          if comp.elseBranch.None? then Done(yes.ctx, [When(slot, true)] + yes.tokens)
          else
            var no :- Node(comp.elseBranch.value, yes.ctx, depth + 1);
            Done(no.ctx, [When(slot, true)] + yes.tokens + [When(slot, false)] + no.tokens)
  }

  /** `item_key`: the name of the loop's index. */
  function IndexName(comp: Component): string
  {
    if comp.key.Some? then comp.key.value else "item"
  }

  /** The array's slot is declared with the string type, as the code does. */
  function Loop(comp: Component, ctx: Ctx, depth: nat): Rendered
    decreases comp, |comp.children| + 1, 0
  {
    if !(comp.items.Some? && comp.items.value.State?) then Failed(BindingError)
    else
      match BindingSlot(comp.items.value.path, TString, ctx)
      case Err(error) => Failed(error)
      case Ok((next, slot)) =>
        if comp.template.None? then Failed(BindingError)
        else
          var body :- Node(comp.template.value, next, depth + 1);
          if IndexName(comp) == "" then Failed(BindingError)
          else Done(body.ctx, [Enter(slot, IndexName(comp))] + body.tokens + [Leave])
  }

  function Fresh(uiMinor: nat): Ctx
  {
    Ctx(map[], map[], 0, 0, uiMinor)
  }

  /** `render_component` after the document was validated. */
  function RenderComponent(root: Component, uiMinor: nat): Rendered
  {
    Node(root, Fresh(uiMinor), 0)
  }
}
