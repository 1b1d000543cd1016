/**
 Text the renderer generates (crates/floatile-renderer/src/render.rs:713-725, 751-771): quoted string literals,
 and property names derived from State paths (crates/floatile-ui-schema/src/path.rs:18-54).
 */
module RenderText {
  import opened Prelude

  // ---- String literals ----

  /** `char::is_control`: Unicode general category Cc. */
  predicate Control(c: char)
  {
    c as int < 0x20 || 0x7F <= c as int <= 0x9F
  }

  function Escape(c: char): Option<string>
  {
    if c == '"' then Some(['\\', '"'])
    else if c == '\\' then Some(['\\', '\\'])
    else if c == '\n' then Some(['\\', 'n'])
    else if c == '\r' then Some(['\\', 'r'])
    else if c == '\t' then Some(['\\', 't'])
    else if Control(c) then None
    else Some([c])
  }

  function EscapeAll(s: string): Option<string>
  {
    if s == [] then Some([])
    else
      match (EscapeAll(s[..|s| - 1]), Escape(s[|s| - 1]))
      case (Some(init), Some(last)) => Some(init + last)
      case _ => None
  }

  /** `encode_string`. */
  method EncodeString(s: string) returns (r: Option<string>)
    ensures r == match EscapeAll(s) case Some(body) => Some(['"'] + body + ['"']) case None => None
  {
    var out := ['"'];
    var i := 0;
    while i < |s|
      invariant 0 <= i <= |s|
      invariant EscapeAll(s[..i]).Some? && out == ['"'] + EscapeAll(s[..i]).value
    {
      assert s[..i + 1][..i] == s[..i];
      var c := s[i];
      if c == '"' {
        out := out + ['\\', '"'];
      } else if c == '\\' {
        out := out + ['\\', '\\'];
      } else if c == '\n' {
        out := out + ['\\', 'n'];
      } else if c == '\r' {
        out := out + ['\\', 'r'];
      } else if c == '\t' {
        out := out + ['\\', 't'];
      } else if Control(c) {
        RejectedPrefix(s, i + 1);
        return None;
      } else {
        out := out + [c];
      }
      i := i + 1;
    }
    assert s[..|s|] == s;
    r := Some(out + ['"']);
  }

  lemma {:induction false} RejectedPrefix(s: string, n: nat)
    requires n <= |s| && EscapeAll(s[..n]).None?
    ensures EscapeAll(s).None?
  {
    if n == |s| {
      assert s[..n] == s;
    } else {
      assert s[..|s| - 1][..n] == s[..n];
      RejectedPrefix(s[..|s| - 1], n);
    }
  }

  /** A reader of the inside of a double-quoted literal: its value and what follows the closing quote. */
  function ReadBody(text: string): Option<(string, string)>
  {
    if text == [] then None
    else if text[0] == '"' then Some(([], text[1..]))
    else if text[0] != '\\' then Prepend(text[0], ReadBody(text[1..]))
    else if |text| < 2 then None
    else if text[1] == 'n' then Prepend('\n', ReadBody(text[2..]))
    else if text[1] == 'r' then Prepend('\r', ReadBody(text[2..]))
    else if text[1] == 't' then Prepend('\t', ReadBody(text[2..]))
    else if text[1] == '"' || text[1] == '\\' then Prepend(text[1], ReadBody(text[2..]))
    else None  // anything else, such as the interpolation `\{`, is not a plain literal
  }

  function Prepend(c: char, rest: Option<(string, string)>): Option<(string, string)>
  {
    if rest.None? then None else Some(([c] + rest.value.0, rest.value.1))
  }

  lemma ReadEscaped(c: char, rest: string)
    requires Escape(c).Some?
    ensures ReadBody(Escape(c).value + rest) == Prepend(c, ReadBody(rest))
  {
    var e := Escape(c).value;
    assert (e + rest)[|e|..] == rest;
    assert |e| == 1 || |e| == 2;
  }

  lemma {:induction false} EscapedReadsBack(s: string, rest: string, tail: string, after: string)
    requires EscapeAll(s).Some? && ReadBody(rest) == Some((tail, after))
    ensures ReadBody(EscapeAll(s).value + rest) == Some((s + tail, after))
  {
    if s == [] {
      assert EscapeAll(s).value + rest == rest && s + tail == tail;
    } else {
      var n := |s| - 1;
      var init, last := EscapeAll(s[..n]).value, Escape(s[n]).value;
      ReadEscaped(s[n], rest);
      EscapedReadsBack(s[..n], last + rest, [s[n]] + tail, after);
      assert init + last + rest == init + (last + rest);
      assert s[..n] + ([s[n]] + tail) == s + tail;
    }
  }

  /** Whatever text follows, an encoded string reads back as one literal equal to its input. */
  lemma LiteralReadsBack(s: string, after: string)
    requires EscapeAll(s).Some?
    ensures ReadBody(EscapeAll(s).value + (['"'] + after)) == Some((s, after))
  {
    assert (['"'] + after)[1..] == after;
    EscapedReadsBack(s, ['"'] + after, [], after);
    assert s + [] == s;
  }

  /** Exactly the strings with a control character other than newline, return and tab are refused. */
  lemma {:induction false} RefusedIffControl(s: string)
    ensures EscapeAll(s).None? <==> exists i :: 0 <= i < |s| && Control(s[i]) && s[i] !in "\n\r\t"
  {
    if s != [] {
      var n := |s| - 1;
      RefusedIffControl(s[..n]);
      if i :| 0 <= i < |s| && Control(s[i]) && s[i] !in "\n\r\t" {
        if i < n {
          assert s[..n][i] == s[i];
        }
      }
      assert Escape(s[n]).None? <==> Control(s[n]) && s[n] !in "\n\r\t";
    }
  }

  // ---- State paths and property names ----

  /** `char::is_whitespace`: the Unicode White_Space property. */
  predicate Whitespace(c: char)
  {
    var n := c as int;
    || 9 <= n <= 13 || n == 0x20 || n == 0x85 || n == 0xA0 || n == 0x1680 || 0x2000 <= n <= 0x200A
    || n == 0x2028 || n == 0x2029 || n == 0x202F || n == 0x205F || n == 0x3000
  }

  predicate FieldOk(field: string)
  {
    field != [] && forall c | c in field :: c != '[' && c != ']' && c != '*' && !Whitespace(c)
  }

  /** The pieces between the dots. */
  function SplitDots(s: string): (r: seq<string>)
    ensures r != []
  {
    if s == [] then [[]]
    else
      var init, last := SplitDots(s[..|s| - 1]), s[|s| - 1];
      if last == '.' then init + [[]] else init[..|init| - 1] + [init[|init| - 1] + [last]]
  }

  /** `PathSegments::parse`: `$` is the root, `$.a.b` the fields `a` and `b`. */
  function Parse(path: string): Option<seq<string>>
  {
    if path == [] || path[0] != '$' then None
    else if |path| == 1 then Some([])
    else if path[1] != '.' then None
    else
      var fields := SplitDots(path[2..]);
      if forall f | f in fields :: FieldOk(f) then Some(fields) else None
  }

  function Join(segments: seq<string>, separator: char): string
  {
    if segments == [] then []
    else if |segments| == 1 then segments[0]
    else Join(segments[..|segments| - 1], separator) + [separator] + segments[|segments| - 1]
  }

  function PropName(segments: seq<string>): string
  {
    "prop_" + if segments == [] then "state" else Join(segments, '_')
  }

  lemma {:induction false} SplitJoins(s: string)
    ensures Join(SplitDots(s), '.') == s
  {
    if s != [] {
      var n := |s| - 1;
      SplitJoins(s[..n]);
      var init, r := SplitDots(s[..n]), SplitDots(s);
      var k := |init| - 1;
      if s[n] == '.' {
        assert r[..|r| - 1] == init && r[|r| - 1] == [];
        assert Join(r, '.') == Join(init, '.') + ['.'] + [];
      } else {
        assert r[..k] == init[..k] && r[k] == init[k] + [s[n]];
        assert Join(r, '.') == Join(init, '.') + [s[n]];
      }
      assert s == s[..n] + [s[n]];
    }
  }

  lemma {:induction false} DotFree(s: string)
    requires '.' !in s
    ensures SplitDots(s) == [s]
  {
    if s != [] {
      DotFree(s[..|s| - 1]);
      assert s == s[..|s| - 1] + [s[|s| - 1]];
    }
  }

  lemma OneField(path: string, field: string)
    requires path == "$." + field && FieldOk(field) && '.' !in field
    ensures Parse(path) == Some([field])
  {
    assert path[2..] == field;
    DotFree(field);
  }

  /** Different paths have different segments. */
  lemma ParseIsInjective(p: string, q: string)
    requires Parse(p).Some? && Parse(p) == Parse(q)
    ensures p == q
  {
    if |p| > 1 {
      SplitJoins(p[2..]);
      assert p == "$." + p[2..];
    }
    if |q| > 1 {
      SplitJoins(q[2..]);
      assert q == "$." + q[2..];
    }
    if |p| == 1 || |q| == 1 {
      assert p[0] == q[0] == '$';
    }
  }

  predicate UnderscoreFree(segments: seq<string>)
  {
    forall f | f in segments :: '_' !in f
  }

  lemma LastUnderscore(a: string, x: string)
    requires '_' !in x
    ensures var s := a + ['_'] + x; s[|a|] == '_' && forall i | |a| < i < |s| :: s[i] != '_'
  {
    var s := a + ['_'] + x;
    forall i | |a| < i < |s|
      ensures s[i] != '_'
    {
      assert s[i] == x[i - |a| - 1];
    }
  }

  lemma LastSeparator(a: string, x: string, b: string, y: string)
    requires a + ['_'] + x == b + ['_'] + y && '_' !in x && '_' !in y
    ensures a == b && x == y
  {
    var s := a + ['_'] + x;
    LastUnderscore(a, x);
    LastUnderscore(b, y);
    assert |a| == |b|;
    assert a == s[..|a|] == b && x == s[|a| + 1..] == y;
  }

  lemma JoinSeparates(p: seq<string>)
    requires p != [] && UnderscoreFree(p)
    ensures '_' in Join(p, '_') <==> |p| > 1
    ensures |p| == 1 ==> p == [Join(p, '_')]
  {
    if |p| > 1 {
      assert Join(p, '_')[|Join(p[..|p| - 1], '_')|] == '_';
    }
  }

  lemma {:induction false} JoinIsInjective(p: seq<string>, q: seq<string>)
    requires p != [] && q != [] && UnderscoreFree(p) && UnderscoreFree(q)
    requires Join(p, '_') == Join(q, '_')
    ensures p == q
  {
    if |p| > 1 && |q| > 1 {
      var a, b := p[..|p| - 1], q[..|q| - 1];
      LastSeparator(Join(a, '_'), p[|p| - 1], Join(b, '_'), q[|q| - 1]);
      JoinIsInjective(a, b);
      assert p == a + [p[|p| - 1]] && q == b + [q[|q| - 1]];
    } else {
      JoinSeparates(p);
      JoinSeparates(q);
    }
  }

  /** Without underscores in field names, two paths share a property name only as the root and `$.state` do. */
  lemma NamesCollideOnlyAtState(p: seq<string>, q: seq<string>)
    requires UnderscoreFree(p) && UnderscoreFree(q)
    ensures PropName(p) == PropName(q) <==> SameName(p, q)
  {
    assert Named([]) == Named(["state"]) == ["state"];
    assert PropName(p) == "prop_" + Join(Named(p), '_') && PropName(q) == "prop_" + Join(Named(q), '_');
    assert PropName(p)[5..] == Join(Named(p), '_') && PropName(q)[5..] == Join(Named(q), '_');
    if PropName(p) == PropName(q) {
      JoinIsInjective(Named(p), Named(q));
    }
  }

  predicate SameName(p: seq<string>, q: seq<string>)
  {
    p == q || (p == [] && q == ["state"]) || (q == [] && p == ["state"])
  }

  function Named(segments: seq<string>): (r: seq<string>)
    ensures r != []
  {
    if segments == [] then ["state"] else segments
  }

  /** With underscores they do collide: `$.a_b` and `$.a.b` get the same name. */
  lemma NamesCollide()
    ensures exists p, q :: p != q && (forall f | f in p + q :: FieldOk(f)) && PropName(p) == PropName(q)
  {
    var p, q := ["a_b"], ["a", "b"];
    assert q[..1] == ["a"] && Join(q, '_') == Join(["a"], '_') + "_" + "b" == "a_b";
    assert |p| != |q|;
    assert forall f | f in p + q :: f == "a_b" || f == "a" || f == "b";
  }
}
