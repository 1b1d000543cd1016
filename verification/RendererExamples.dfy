/** Trees the generator accepts although their code cannot work. */
module RendererExamples {
  import opened Prelude
  import opened RenderText
  import opened Renderer
  import opened RendererScope
  import opened RendererLoops
  import opened Identifiers
  import opened RendererOutline
  import opened RendererNames
  import opened RendererAccepts

  function TextNode(value: PropValue): Component
  {
    Component("Text", map["text" := value], [], map[], None, None, None, None, None, None)
  }

  // ---- A loop whose template shows a field of the item ----

  function ItemLoop(path: string, key: string, name: string): Component
  {
    Component("ForEach", map[], [], map[], None, None, None, Some(State(path)), Some(key), Some(TextNode(Item(name))))
  }

  lemma ItemLoopAccepted(path: string, key: string, name: string)
    requires Parse(path).Some? && key != ""
    ensures RenderComponent(ItemLoop(path, key, name), 6).Done?
  {
    var comp := ItemLoop(path, key, name);
    ItemLoopNames(path, key, name, {});
    assert LeafOk(TextNode(Item(name)), 6) && TreeOk(TextNode(Item(name)), 6, 1);
    assert Size(TextNode(Item(name))) == 1 && Size(comp) == 2;
    LoopTypings(path, key, [Shown(name)]);
    NoTypings([Shown(name)]);
    assert [Each(path, key)] + [Shown(name)] + [EndLoop] == Outline(comp, 6);
    assert Typings(Outline(comp, 6)) == {(path, TString)};
    AcceptedIff(comp, 6);
  }

  lemma ItemLoopNames(path: string, key: string, name: string, known: set<string>)
    ensures Outline(ItemLoop(path, key, name), 6) == [Each(path, key), Shown(name), EndLoop]
    ensures Bound(ItemLoop(path, key, name), [], Visibly(known)) <==> Visible(name, [key], known)
  {
    assert [] + [key] == [key];
    assert Bound(TextNode(Item(name)), [key], Visibly(known)) <==> Visible(name, [key], known);
  }

  /** Any such loop is accepted; when its names read back, and when the one it shows is visible. */
  lemma ItemLoopWorks(path: string, key: string, name: string, known: set<string>, abc: Alphabet)
    requires Parse(path).Some? && key != ""
    ensures var r, fields := RenderComponent(ItemLoop(path, key, name), 6), Parse(path).value;
      && r.Done? && path in r.ctx.bindings && r.ctx.bindings[path].prop == PropName(fields)
      && (NamesReadBack(r.tokens, abc) <==> WordFields(fields, abc) && Identifier(key, abc) && Identifier(name, abc))
      && (Scan(r.tokens, [], Visibly(known)).Some? <==> Visible(name, [key], known))
  {
    var comp := ItemLoop(path, key, name);
    ItemLoopAccepted(path, key, name);
    ItemLoopNames(path, key, name, known);
    ItemLoopPlain(path, key, name, abc);
    NamesReadBackIffPlain(comp, 6, abc);
    BindingsAreUses(comp, 6, path);
    TokensAreScoped(comp, 6);
    ItemNamesFollowTree(comp, 6, Visibly(known));
  }

  lemma ItemLoopPlain(path: string, key: string, name: string, abc: Alphabet)
    requires Parse(path).Some?
    ensures var comp := ItemLoop(path, key, name);
      && BindsPath(comp, 6, path)
      && (Plain(comp, 6, abc) <==>
            WordFields(Parse(path).value, abc) && Identifier(key, abc) && Identifier(name, abc))
  {
    ItemLoopNames(path, key, name, {});
    var uses := Outline(ItemLoop(path, key, name), 6);
    assert uses[0] in uses && uses[1] in uses && Binds(uses[0], path);
  }

  /**
   A tree whose template shows a name that is neither known, nor `item`, nor the loop's own key is accepted; its code
   reads that name back and nothing gives it a meaning, and it iterates over a string.
   */
  lemma FieldNamesAreUndeclared(path: string, key: string, name: string, known: set<string>, abc: Alphabet)
    requires Parse(path).Some? && Identifier(key, abc) && Identifier(name, abc)
    requires name !in known && name != "item" && name != key
    ensures var r := RenderComponent(ItemLoop(path, key, name), 6);
      && r.Done? && (NamesReadBack(r.tokens, abc) <==> WordFields(Parse(path).value, abc))
      && !NamesWork(r.tokens, known, abc) && exists t | t in r.tokens :: !WellTyped(t)
  {
    ItemLoopWorks(path, key, name, known, abc);
    LoopArraysAreStrings(ItemLoop(path, key, name), 6);
  }

  /** The usual shape: rows keyed by `id` that show their `title`. */
  lemma TitleIsUndeclared(known: set<string>, abc: Alphabet)
    requires "title" !in known
    ensures var r := RenderComponent(ItemLoop("$.rows", "id", "title"), 6);
      r.Done? && NamesReadBack(r.tokens, abc) && !NamesWork(r.tokens, known, abc)
  {
    RowsParse();
    NamesAreIdentifiers(abc);
    FieldNamesAreUndeclared("$.rows", "id", "title", known, abc);
  }

  lemma RowsParse()
    ensures Parse("$.rows") == Some(["rows"])
  {
    assert "$.rows" == "$." + "rows";
    OneField("$.rows", "rows");
  }

  lemma NamesAreIdentifiers(abc: Alphabet)
    ensures Identifier("id", abc) && Identifier("title", abc) && WordFields(["rows"], abc)
    ensures "title" != "item" && "title" != "id"
  {
    assert |"title"| != |"item"| && |"title"| != |"id"|;
  }

  /** The shape of the documentation: keyed by `value` and showing `value`, which is the index and not the element. */
  lemma DocumentedLoopShowsIndex(path: string)
    requires Parse(path).Some?
    ensures RenderComponent(ItemLoop(path, "value", "value"), 6).Done?
    ensures Denoted("value", ["value"]) == IndexOf(0) && Intended("value", ["value"]) == PartOf(0, [])
  {
    ItemLoopAccepted(path, "value", "value");
    DotFree("value");
  }

  // ---- Names that are no names ----

  lemma SemicolonEndsName(abc: Alphabet)
    ensures !Identifier("a;b", abc) && ReadName("prop_a;b", abc) == Some(("prop_a", ";b"))
  {
    assert "a;b"[1] == ';' && ';' in "a;b";
    TakeWordTakes("prop_a", ";b", abc);
    assert "prop_a" + ";b" == "prop_a;b";
  }

  lemma SemicolonParses()
    ensures Parse("$.a;b") == Some(["a;b"]) && PropName(["a;b"]) == "prop_a;b"
  {
    assert "$.a;b" == "$." + "a;b";
    OneField("$.a;b", "a;b");
    assert Join(["a;b"], '_') == "a;b";
    assert "prop_" + "a;b" == "prop_a;b";
  }

  /** A field, a key and an item name with a semicolon inside: accepted, but not read back as written. */
  lemma BrokenNamesAreAccepted(known: set<string>, abc: Alphabet)
    ensures var path, r := "$.a;b", RenderComponent(ItemLoop("$.a;b", "a;b", "a;b"), 6);
      && r.Done? && Scan(r.tokens, [], Visibly(known)).Some? && !NamesReadBack(r.tokens, abc)
      && path in r.ctx.bindings && r.ctx.bindings[path].prop == "prop_a;b"
      && ReadName("prop_a;b", abc) == Some(("prop_a", ";b"))
  {
    SemicolonParses();
    SemicolonEndsName(abc);
    SameKeyIsVisible("$.a;b", "a;b", known, abc);
  }

  /** A loop that shows its own key resolves; its names read back only if the key is an identifier. */
  lemma SameKeyIsVisible(path: string, key: string, known: set<string>, abc: Alphabet)
    requires Parse(path).Some? && key != ""
    ensures var r := RenderComponent(ItemLoop(path, key, key), 6);
      && r.Done? && path in r.ctx.bindings && r.ctx.bindings[path].prop == PropName(Parse(path).value)
      && Scan(r.tokens, [], Visibly(known)).Some? && (NamesReadBack(r.tokens, abc) ==> Identifier(key, abc))
  {
    ItemLoopWorks(path, key, key, known, abc);
  }

  // ---- Two paths with one property name ----

  lemma {:induction false} SplitTwo(f: string, g: string)
    requires '.' !in f && '.' !in g
    ensures SplitDots(f + ['.'] + g) == [f, g]
  {
    var s := f + ['.'] + g;
    if g == [] {
      assert s[..|s| - 1] == f;
      DotFree(f);
    } else {
      assert s[..|s| - 1] == f + ['.'] + g[..|g| - 1];
      SplitTwo(f, g[..|g| - 1]);
      assert g == g[..|g| - 1] + [g[|g| - 1]];
    }
  }

  lemma TwoFields(path: string, f: string, g: string)
    requires path == "$." + (f + ['.'] + g) && FieldOk(f) && FieldOk(g) && '.' !in f && '.' !in g
    ensures Parse(path) == Some([f, g])
  {
    assert path[2..] == f + ['.'] + g;
    SplitTwo(f, g);
  }

  /** Two texts bound to two State paths. */
  function Pair(p: string, q: string): Component
  {
    Component("Column", map[], [TextNode(State(p)), TextNode(State(q))], map[], None, None, None, None, None, None)
  }

  lemma PairOutline(p: string, q: string)
    ensures Outline(Pair(p, q), 6) == [Value(p, TString), Value(q, TString)] && Size(Pair(p, q)) == 3
    ensures Typings(Outline(Pair(p, q), 6)) == {(p, TString), (q, TString)}
    ensures TreeOk(Pair(p, q), 6, 0) <==> Parse(p).Some? && Parse(q).Some?
  {
    var comp := Pair(p, q);
    var first, second := comp.children[0], comp.children[1];
    assert Outline(first, 6) == [Value(p, TString)] && Outline(second, 6) == [Value(q, TString)];
    assert ChildOutlines(comp, 2, 6) == [] && ChildOutlines(comp, 1, 6) == [Value(q, TString)];
    assert ChildOutlines(comp, 0, 6) == [Value(p, TString)] + [Value(q, TString)];
    assert ChildSizes(comp, 2) == 0 && ChildSizes(comp, 1) == 1 && ChildSizes(comp, 0) == 2;
    assert TreeOk(first, 6, 1) <==> Parse(p).Some?;
    assert TreeOk(second, 6, 1) <==> Parse(q).Some?;
    assert ChildrenOk(comp, 2, 6, 0) && (ChildrenOk(comp, 1, 6, 0) <==> Parse(q).Some?);
    assert ChildrenOk(comp, 0, 6, 0) <==> Parse(p).Some? && Parse(q).Some?;
    OneTyping(Value(p, TString));
    OneTyping(Value(q, TString));
    JoinTypings([Value(p, TString)], [Value(q, TString)]);
  }

  lemma PairAccepted(p: string, q: string)
    requires p != q && Parse(p).Some? && Parse(q).Some?
    ensures var r := RenderComponent(Pair(p, q), 6);
      && r.Done? && p in r.ctx.bindings && q in r.ctx.bindings
      && r.ctx.bindings[p].prop == PropName(Parse(p).value) && r.ctx.bindings[q].prop == PropName(Parse(q).value)
  {
    var comp := Pair(p, q);
    PairOutline(p, q);
    AcceptedIff(comp, 6);
    assert Binds(Outline(comp, 6)[0], p) && Binds(Outline(comp, 6)[1], q);
    BindingsAreUses(comp, 6, p);
    BindingsAreUses(comp, 6, q);
    TokensAreScoped(comp, 6);
  }

  lemma SameName()
    ensures PropName(["a_b"]) == PropName(["a", "b"])
  {
    assert ["a", "b"][..1] == ["a"];
    assert Join(["a", "b"], '_') == Join(["a"], '_') + ['_'] + "b";
    assert "a" + ['_'] + "b" == "a_b";
  }

  /** The pair `$.a_b` and `$.a.b` is accepted and declares one property name twice. */
  lemma PropertyDeclaredTwice()
    ensures var r := RenderComponent(Pair("$.a_b", "$.a.b"), 6);
      && r.Done? && "$.a_b" in r.ctx.bindings && "$.a.b" in r.ctx.bindings
      && r.ctx.bindings["$.a_b"].prop == r.ctx.bindings["$.a.b"].prop
  {
    assert "$.a_b" == "$." + "a_b" && "$.a.b" == "$." + ("a" + ['.'] + "b");
    OneField("$.a_b", "a_b");
    TwoFields("$.a.b", "a", "b");
    assert "$.a_b"[3] != "$.a.b"[3];
    PairAccepted("$.a_b", "$.a.b");
    SameName();
  }
}
