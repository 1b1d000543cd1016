/**
 The names in generated code: when each is one name, and what an item binding denotes
 (crates/floatile-renderer/src/render.rs:92-117, 369-376, 644-725; crates/floatile-ui-schema/src/validate.rs:304-315).
 */
module RendererNames {
  import opened Prelude
  import opened RenderText
  import opened Identifiers
  import opened Renderer
  import opened RendererScope
  import opened RendererLoops
  import opened RendererOutline
  import Encoding

  // ---- Names that are names ----

  /** The strings written raw where the text needs a name. */
  function Written(token: Token): set<string>
  {
    match token
    case PropRef(slot, _) => {slot.prop}
    case When(slot, _) => {slot.prop}
    case Enter(slot, index) => {slot.prop, index}
    case CallRef(target) => {target.callback}
    case LoopVar(name) => {name}
    case _ => {}
  }

  ghost predicate NamesReadBack(tokens: seq<Token>, abc: Alphabet)
  {
    forall t, name | t in tokens && name in Written(t) :: ReadsBack(name, abc)
  }

  predicate PlainPath(path: string, abc: Alphabet)
  {
    Parse(path).Some? && WordFields(Parse(path).value, abc)
  }

  /** Bound fields have word characters only; shown item names and keys are identifiers. */
  predicate PlainUse(use: Use, abc: Alphabet)
  {
    match use
    case Value(path, _) => PlainPath(path, abc)
    case Condition(path, _) => PlainPath(path, abc)
    case Each(path, key) => PlainPath(path, abc) && Identifier(key, abc)
    case Shown(name) => Identifier(name, abc)
    case _ => true
  }

  predicate Plain(comp: Component, uiMinor: nat, abc: Alphabet)
  {
    forall u | u in Outline(comp, uiMinor) :: PlainUse(u, abc)
  }

  predicate Binds(use: Use, path: string)
  {
    (use.Value? || use.Condition? || use.Each?) && use.path == path
  }

  /** The tree binds the path in the part that becomes code. */
  predicate BindsPath(comp: Component, uiMinor: nat, path: string)
  {
    exists u | u in Outline(comp, uiMinor) :: Binds(u, path)
  }

  lemma CallbackReadsBack(n: nat, abc: Alphabet)
    ensures ReadsBack(CallbackName(n), abc)
  {
    var bytes := Encoding.Decimal(n);
    var digits := Chars(bytes);
    forall c | c in digits
      ensures '0' <= c <= '9'
    {
      var i :| 0 <= i < |digits| && digits[i] == c;
      assert bytes[i] in bytes && c as int == bytes[i];
    }
    WordJoin("emit_", digits, abc);
    assert CallbackName(n)[0] == 'e';
    ReadsBackIffIdentifier(CallbackName(n), abc);
  }

  /** Every name the token writes reads back. */
  ghost predicate WritesNames(token: Token, abc: Alphabet)
  {
    forall name | name in Written(token) :: ReadsBack(name, abc)
  }

  lemma WritesOne(token: Token, name: string, abc: Alphabet)
    requires Written(token) == {name}
    ensures WritesNames(token, abc) <==> ReadsBack(name, abc)
  {
    assert name in Written(token);
  }

  lemma SlotNameReadsBack(slot: Slot, abc: Alphabet)
    requires SlotOk(slot.path, slot)
    ensures ReadsBack(slot.prop, abc) <==> PlainPath(slot.path, abc)
  {
    PropNameReadsBack(Parse(slot.path).value, abc);
  }

  lemma CallbackIsName(d: Ctx, target: EventSlot, abc: Alphabet)
    requires CallbacksOk(d.events, d.counter) && target.event in d.events && d.events[target.event] == target
    ensures ReadsBack(target.callback, abc)
  {
    var k: nat :| target.callback == CallbackName(k);
    CallbackReadsBack(k, abc);
  }

  lemma SlotTokenReadsBack(token: Token, abc: Alphabet)
    requires token.PropRef? || token.When? || token.Enter?
    requires SlotOk(token.slot.path, token.slot)
    ensures WritesNames(token, abc) <==> PlainUse(UseOf(token), abc)
  {
    SlotNameReadsBack(token.slot, abc);
    if token.Enter? {
      ReadsBackIffIdentifier(token.index, abc);
      assert token.slot.prop in Written(token) && token.index in Written(token);
    } else {
      WritesOne(token, token.slot.prop, abc);
    }
  }

  lemma CallTokenReadsBack(d: Ctx, token: Token, abc: Alphabet)
    requires CallbacksOk(d.events, d.counter) && InScope(d, token) && token.CallRef?
    ensures WritesNames(token, abc) && PlainUse(UseOf(token), abc)
  {
    CallbackIsName(d, token.target, abc);
    WritesOne(token, token.target.callback, abc);
  }

  lemma ItemTokenReadsBack(token: Token, abc: Alphabet)
    requires token.LoopVar?
    ensures WritesNames(token, abc) <==> PlainUse(UseOf(token), abc)
  {
    ReadsBackIffIdentifier(token.name, abc);
    WritesOne(token, token.name, abc);
  }

  lemma SlotInScope(d: Ctx, token: Token)
    requires SlotsOk(d.bindings) && InScope(d, token) && (token.PropRef? || token.When? || token.Enter?)
    ensures SlotOk(token.slot.path, token.slot)
  {
  }

  lemma TokenReadsBack(d: Ctx, token: Token, abc: Alphabet)
    requires SlotsOk(d.bindings) && CallbacksOk(d.events, d.counter) && InScope(d, token)
    ensures WritesNames(token, abc) <==> PlainUse(UseOf(token), abc)
  {
    match token
    case CallRef(_) => CallTokenReadsBack(d, token, abc);
    case LoopVar(_) => ItemTokenReadsBack(token, abc);
    case Quoted(_) =>
    case Window(_) =>
    case Leave =>
    case _ =>
      SlotInScope(d, token);
      SlotTokenReadsBack(token, abc);
  }

  /** The uses of the tokens are the tokens' uses. */
  lemma UsesMembers(tokens: seq<Token>)
    ensures forall t | t in tokens :: UseOf(t) in UsesOf(tokens)
    ensures forall u | u in UsesOf(tokens) :: exists t :: t in tokens && UseOf(t) == u
  {
    forall t | t in tokens
      ensures UseOf(t) in UsesOf(tokens)
    {
      var i :| 0 <= i < |tokens| && tokens[i] == t;
      assert UsesOf(tokens)[i] == UseOf(t);
    }
    forall u | u in UsesOf(tokens)
      ensures exists t :: t in tokens && UseOf(t) == u
    {
      var i :| 0 <= i < |tokens| && UsesOf(tokens)[i] == u;
      assert tokens[i] in tokens;
    }
  }

  lemma NamedBinds(token: Token, slot: Slot)
    requires Names(token, slot)
    ensures Binds(UseOf(token), slot.path)
  {
  }

  lemma DeclaredAreUsed(bindings: map<string, Slot>, tokens: seq<Token>, path: string)
    requires path in bindings && SlotsOk(bindings) && Mentions(tokens, bindings[path])
    ensures exists u | u in UsesOf(tokens) :: Binds(u, path)
  {
    var t :| t in tokens && Names(t, bindings[path]);
    NamedBinds(t, bindings[path]);
    assert bindings[path].path == path;
    UsesMembers(tokens);
    assert UseOf(t) in UsesOf(tokens);
  }

  lemma UsedAreDeclared(d: Ctx, tokens: seq<Token>, path: string)
    requires Scoped(d, tokens) && exists u | u in UsesOf(tokens) :: Binds(u, path)
    ensures path in d.bindings
  {
    var u :| u in UsesOf(tokens) && Binds(u, path);
    UsesMembers(tokens);
    var t :| t in tokens && UseOf(t) == u;
    assert InScope(d, t);
  }

  /** The properties an accepted tree declares are those of the paths it binds. */
  lemma BindingsAreUses(root: Component, uiMinor: nat, path: string)
    requires RenderComponent(root, uiMinor).Done?
    ensures path in RenderComponent(root, uiMinor).ctx.bindings <==> BindsPath(root, uiMinor, path)
  {
    var r := RenderComponent(root, uiMinor);
    NodeIsGood(root, Fresh(uiMinor), 0);
    CodeSaysTree(root, uiMinor);
    if path in r.ctx.bindings {
      DeclaredAreUsed(r.ctx.bindings, r.tokens, path);
    }
    if BindsPath(root, uiMinor, path) {
      UsedAreDeclared(r.ctx, r.tokens, path);
    }
  }

  lemma TokensReadBack(d: Ctx, tokens: seq<Token>, abc: Alphabet)
    requires Declared(d) && Scoped(d, tokens)
    ensures NamesReadBack(tokens, abc) <==> forall u | u in UsesOf(tokens) :: PlainUse(u, abc)
  {
    forall t | t in tokens
      ensures WritesNames(t, abc) <==> PlainUse(UseOf(t), abc)
    {
      assert InScope(d, t);
      TokenReadsBack(d, t, abc);
    }
    UsesMembers(tokens);
    assert NamesReadBack(tokens, abc) <==> forall t | t in tokens :: WritesNames(t, abc);
  }

  /**
   Every name written into the text of an accepted tree reads back as the one name it is exactly when each
   bound field has word characters only and each item name shown and each key is an identifier.
   */
  lemma NamesReadBackIffPlain(root: Component, uiMinor: nat, abc: Alphabet)
    requires RenderComponent(root, uiMinor).Done?
    ensures NamesReadBack(RenderComponent(root, uiMinor).tokens, abc) <==> Plain(root, uiMinor, abc)
  {
    var r := RenderComponent(root, uiMinor);
    NodeIsGood(root, Fresh(uiMinor), 0);
    CodeSaysTree(root, uiMinor);
    TokensReadBack(r.ctx, r.tokens, abc);
  }

  /** In the text a reference to `prop` reads back as the declared property of that name. */
  ghost predicate RefersTo(text: string, prop: string, abc: Alphabet)
  {
    forall rest | Delimited(rest, abc) :: ReadName(text + rest, abc) == Some((prop, rest))
  }

  /**
   For every tree the generator accepts, the text of a reference to a State path reads back as a property that is
   declared for that path, at its declared type, exactly when the path's fields have word characters only; a call
   always reads back as a declared callback. What is declared is referred to and is what the tree binds, callbacks
   differ, and the budgets hold.
   */
  lemma GeneratedCodeIsScoped(root: Component, uiMinor: nat, abc: Alphabet)
    requires RenderComponent(root, uiMinor).Done?
    ensures var r := RenderComponent(root, uiMinor);
      && (forall t | t in r.tokens && (t.PropRef? || t.When? || t.Enter?) ::
            && InScope(r.ctx, t) && Parse(t.slot.path).Some?
            && (RefersTo(t.slot.prop, r.ctx.bindings[t.slot.path].prop, abc) <==>
                WordFields(Parse(t.slot.path).value, abc)))
      && (forall t | t in r.tokens && t.CallRef? ::
            InScope(r.ctx, t) && RefersTo(t.target.callback, r.ctx.events[t.target.event].callback, abc))
      && (forall path | path in r.ctx.bindings :: Mentions(r.tokens, r.ctx.bindings[path]))
      && (forall path :: path in r.ctx.bindings <==> BindsPath(root, uiMinor, path))
      && (forall e | e in r.ctx.events :: CallRef(r.ctx.events[e]) in r.tokens)
      && (forall e, f | e in r.ctx.events && f in r.ctx.events && e != f ::
            r.ctx.events[e].callback != r.ctx.events[f].callback)
      && |r.ctx.bindings| <= MAX_BINDINGS && r.ctx.nodes <= MAX_NODES
  {
    var r := RenderComponent(root, uiMinor);
    TokensAreScoped(root, uiMinor);
    NodeIsGood(root, Fresh(uiMinor), 0);
    forall path
      ensures path in r.ctx.bindings <==> BindsPath(root, uiMinor, path)
    {
      BindingsAreUses(root, uiMinor, path);
    }
    forall t | t in r.tokens && (t.PropRef? || t.When? || t.Enter?)
      ensures InScope(r.ctx, t) && Parse(t.slot.path).Some?
      ensures RefersTo(t.slot.prop, r.ctx.bindings[t.slot.path].prop, abc) <==>
              WordFields(Parse(t.slot.path).value, abc)
    {
      assert InScope(r.ctx, t);
      SlotReadsBack(t.slot, abc);
    }
    forall t | t in r.tokens && t.CallRef?
      ensures InScope(r.ctx, t) && RefersTo(t.target.callback, r.ctx.events[t.target.event].callback, abc)
    {
      assert InScope(r.ctx, t);
      TargetReadsBack(r.ctx, t.target, abc);
    }
  }

  lemma SlotReadsBack(slot: Slot, abc: Alphabet)
    requires SlotOk(slot.path, slot)
    ensures RefersTo(slot.prop, slot.prop, abc) <==> WordFields(Parse(slot.path).value, abc)
  {
    SlotNameReadsBack(slot, abc);
    assert RefersTo(slot.prop, slot.prop, abc) <==> ReadsBack(slot.prop, abc);
  }

  lemma TargetReadsBack(d: Ctx, target: EventSlot, abc: Alphabet)
    requires Declared(d) && target.event in d.events && d.events[target.event] == target
    ensures RefersTo(target.callback, target.callback, abc)
  {
    CallbackIsName(d, target, abc);
    assert RefersTo(target.callback, target.callback, abc) <==> ReadsBack(target.callback, abc);
  }

  // ---- Names that are visible ----

  /** Known without a loop, or inside a loop `item` or the key of an enclosing one. */
  predicate Visible(name: string, loops: seq<string>, known: set<string>)
  {
    name in known || (loops != [] && (name == "item" || name in loops))
  }

  function Visibly(known: set<string>): Test
  {
    (name, loops) => Visible(name, loops, known)
  }

  /** Every name is one name, and every item name is visible where it stands. */
  ghost predicate NamesWork(tokens: seq<Token>, known: set<string>, abc: Alphabet)
  {
    NamesReadBack(tokens, abc) && Scan(tokens, [], Visibly(known)).Some?
  }

  /**
   Whatever names the language gives a meaning of their own: the names in the code generated for an accepted
   tree all work exactly when the tree is plain and every item name it shows is visible.
   */
  lemma LoopNamesResolve(root: Component, uiMinor: nat, known: set<string>, abc: Alphabet)
    requires RenderComponent(root, uiMinor).Done?
    ensures NamesWork(RenderComponent(root, uiMinor).tokens, known, abc) <==>
            Plain(root, uiMinor, abc) && Bound(root, [], Visibly(known))
  {
    NamesReadBackIffPlain(root, uiMinor, abc);
    ItemNamesFollowTree(root, uiMinor, Visibly(known));
  }

  // ---- What an item binding denotes ----

  /** The index of a loop, counted from the outside, or a part of its element: the element itself is `[]`. */
  datatype Meaning = Unknown | IndexOf(depth: nat) | PartOf(depth: nat, fields: seq<string>)

  /** Innermost loop first; where one loop uses a name twice, the index hides the element. */
  function Lookup(name: string, loops: seq<string>): Meaning
  {
    if loops == [] then Unknown
    else
      var last := |loops| - 1;
      if name == loops[last] then IndexOf(last)
      else if name == "item" then PartOf(last, [])
      else Lookup(name, loops[..last])
  }

  /** What the emitted text denotes: the first name as it resolves, and the fields read from it. */
  function Denoted(name: string, loops: seq<string>): Meaning
  {
    var segments := SplitDots(name);
    match Lookup(segments[0], loops)
    case Unknown => Unknown
    case IndexOf(depth) => if |segments| == 1 then IndexOf(depth) else Unknown
    case PartOf(depth, _) => PartOf(depth, segments[1..])
  }

  /** What validation takes the binding for: `value` is the element of the loop around, else a path in it. */
  function Intended(name: string, loops: seq<string>): Meaning
    requires loops != []
  {
    PartOf(|loops| - 1, if name == "value" then [] else SplitDots(name))
  }

  predicate LatestAt(name: string, loops: seq<string>, k: nat)
  {
    k < |loops| && loops[k] == name && forall j | k < j < |loops| :: loops[j] != name
  }

  /** A bare name is the element only as `item`, and the index of the nearest loop keyed by it otherwise. */
  lemma {:induction false} LookupMeans(name: string, loops: seq<string>, k: nat)
    ensures Lookup(name, loops) == IndexOf(k) <==>
            LatestAt(name, loops, k) && (name == "item" ==> k + 1 == |loops|)
    ensures Lookup(name, loops) == Unknown <==> !Visible(name, loops, {})
    ensures Lookup(name, loops).PartOf? <==> loops != [] && name == "item" && loops[|loops| - 1] != "item"
    ensures Lookup(name, loops).PartOf? ==> Lookup(name, loops) == PartOf(|loops| - 1, [])
  {
    if loops != [] {
      var last := |loops| - 1;
      if name != loops[last] && name != "item" {
        LookupMeans(name, loops[..last], k);
        assert loops == loops[..last] + [loops[last]];
      }
    }
  }

  /** No item binding, whatever its name, denotes what validation took it for; `value` is at most an index. */
  lemma ItemsNeverMeanTheirField(name: string, loops: seq<string>)
    requires loops != []
    ensures Denoted(name, loops) != Intended(name, loops)
    ensures !Denoted("value", loops).PartOf?
  {
    var segments := SplitDots(name);
    DotFree("value");
    assert |"value"| != |"item"|;
    LookupMeans("value", loops, 0);
    if Denoted(name, loops).PartOf? {
      LookupMeans(segments[0], loops, 0);
      assert |segments[1..]| < |segments|;
    }
  }

  function AsIntended(): Test
  {
    (name, loops) => loops != [] && Denoted(name, loops) == Intended(name, loops)
  }

  predicate ShowsItem(comp: Component, uiMinor: nat)
  {
    exists u | u in Outline(comp, uiMinor) :: u.Shown?
  }

  /** Every item name in the tokens denotes what validation took it for exactly when there is none. */
  lemma {:induction false} IntendedTokens(tokens: seq<Token>, loops: seq<string>)
    requires Scan(tokens, loops, AsIntended()).Some?
    ensures forall t | t in tokens :: !t.LoopVar?
    decreases |tokens|
  {
    if tokens != [] {
      match tokens[0]
      case Enter(_, index) => IntendedTokens(tokens[1..], loops + [index]);
      case Leave => IntendedTokens(tokens[1..], loops[..|loops| - 1]);
      case LoopVar(name) => ItemsNeverMeanTheirField(name, loops);
      case PropRef(_, _) => IntendedTokens(tokens[1..], loops);
      case CallRef(_) => IntendedTokens(tokens[1..], loops);
      case Quoted(_) => IntendedTokens(tokens[1..], loops);
      case When(_, _) => IntendedTokens(tokens[1..], loops);
      case Window(_) => IntendedTokens(tokens[1..], loops);
    }
  }

  lemma {:induction false} SameWithoutItems(tokens: seq<Token>, loops: seq<string>, test: Test, other: Test)
    requires forall t | t in tokens :: !t.LoopVar?
    ensures Scan(tokens, loops, test) == Scan(tokens, loops, other)
    decreases |tokens|
  {
    if tokens != [] {
      assert tokens[0] in tokens;
      match tokens[0]
      case Enter(_, index) => SameWithoutItems(tokens[1..], loops + [index], test, other);
      case Leave =>
        if loops != [] {
          SameWithoutItems(tokens[1..], loops[..|loops| - 1], test, other);
        }
      case PropRef(_, _) => SameWithoutItems(tokens[1..], loops, test, other);
      case CallRef(_) => SameWithoutItems(tokens[1..], loops, test, other);
      case Quoted(_) => SameWithoutItems(tokens[1..], loops, test, other);
      case When(_, _) => SameWithoutItems(tokens[1..], loops, test, other);
      case Window(_) => SameWithoutItems(tokens[1..], loops, test, other);
    }
  }

  lemma {:induction false} AlwaysBound(comp: Component, loops: seq<string>)
    ensures Bound(comp, loops, (_, _) => true)
  {
    forall i | 0 <= i < |comp.children|
      ensures Bound(comp.children[i], loops, (_, _) => true)
    {
      AlwaysBound(comp.children[i], loops);
    }
    if comp.thenBranch.Some? {
      AlwaysBound(comp.thenBranch.value, loops);
    }
    if comp.elseBranch.Some? {
      AlwaysBound(comp.elseBranch.value, loops);
    }
    if comp.template.Some? {
      AlwaysBound(comp.template.value, loops + [IndexName(comp)]);
    }
  }

  /** The item bindings of an accepted tree all denote what validation took them for exactly when there is none. */
  lemma ItemsAreIntendedIffNone(root: Component, uiMinor: nat)
    requires RenderComponent(root, uiMinor).Done?
    ensures Scan(RenderComponent(root, uiMinor).tokens, [], AsIntended()).Some? <==> !ShowsItem(root, uiMinor)
  {
    var tokens := RenderComponent(root, uiMinor).tokens;
    CodeSaysTree(root, uiMinor);
    if Scan(tokens, [], AsIntended()).Some? {
      IntendedTokens(tokens, []);
    }
    UsesMembers(tokens);
    if !ShowsItem(root, uiMinor) {
      forall t | t in tokens
        ensures !t.LoopVar?
      {
        assert UseOf(t) in UsesOf(tokens);
      }
      SameWithoutItems(tokens, [], AsIntended(), (_, _) => true);
      AlwaysBound(root, []);
      ItemNamesFollowTree(root, uiMinor, (_, _) => true);
    }
  }
}
