/**
 Names as the generated language reads them: a letter or `_`, then letters, digits, `_` and `-`, as many as follow.
 The generator writes property names, loop keys and item names into the text as they are
 (crates/floatile-renderer/src/render.rs:105-112, 374, 659-663); only some strings read back as the one name written.
 */
module Identifiers {
  import opened Prelude
  import opened RenderText

  /** Which characters beyond ASCII count as letters and as numerals; nothing below depends on the choice. */
  datatype Alphabet = Alphabet(letters: set<char>, numerals: set<char>)

  predicate Letter(c: char, abc: Alphabet)
  {
    'a' <= c <= 'z' || 'A' <= c <= 'Z' || c == '_' || (c as int >= 0x80 && c in abc.letters)
  }

  predicate WordChar(c: char, abc: Alphabet)
  {
    Letter(c, abc) || '0' <= c <= '9' || c == '-' || (c as int >= 0x80 && c in abc.numerals)
  }

  predicate Word(s: string, abc: Alphabet)
  {
    forall c | c in s :: WordChar(c, abc)
  }

  predicate Identifier(s: string, abc: Alphabet)
  {
    s != [] && Letter(s[0], abc) && Word(s, abc)
  }

  // ---- Reading a name ----

  /** The characters of a word at the start of the text, and what follows them. */
  function TakeWord(text: string, abc: Alphabet): (string, string)
  {
    if text == [] || !WordChar(text[0], abc) then ([], text)
    else
      var (word, rest) := TakeWord(text[1..], abc);
      ([text[0]] + word, rest)
  }

  function ReadName(text: string, abc: Alphabet): Option<(string, string)>
  {
    if text == [] || !Letter(text[0], abc) then None else Some(TakeWord(text, abc))
  }

  /** What the generator writes after a name never continues it: `;`, `:`, `]`, `(`, a space or an operator. */
  predicate Delimited(rest: string, abc: Alphabet)
  {
    rest == [] || !WordChar(rest[0], abc)
  }

  lemma {:induction false} TakeWordTakes(s: string, rest: string, abc: Alphabet)
    requires Delimited(rest, abc)
    ensures TakeWord(s + rest, abc) == (s, rest) <==> Word(s, abc)
  {
    if s == [] {
      assert s + rest == rest;
    } else {
      assert (s + rest)[1..] == s[1..] + rest;
      TakeWordTakes(s[1..], rest, abc);
      assert s == [s[0]] + s[1..];
    }
  }

  /** Whatever delimited text follows, a string reads back as one name, itself, exactly when it is an identifier. */
  lemma NameReadsBack(s: string, rest: string, abc: Alphabet)
    requires s != [] && Delimited(rest, abc)
    ensures ReadName(s + rest, abc) == Some((s, rest)) <==> Identifier(s, abc)
  {
    TakeWordTakes(s, rest, abc);
  }

  /** The string reads back as one name wherever the generator writes it. */
  ghost predicate ReadsBack(s: string, abc: Alphabet)
  {
    forall rest | Delimited(rest, abc) :: ReadName(s + rest, abc) == Some((s, rest))
  }

  lemma ReadsBackIffIdentifier(s: string, abc: Alphabet)
    ensures ReadsBack(s, abc) <==> Identifier(s, abc)
  {
    assert Delimited([], abc);
    if s == [] {
      assert ReadName(s + [], abc).None?;
    } else {
      NameReadsBack(s, [], abc);
      forall rest | Delimited(rest, abc)
        ensures ReadName(s + rest, abc) == Some((s, rest)) <==> Identifier(s, abc)
      {
        NameReadsBack(s, rest, abc);
      }
    }
  }

  // ---- Generated names ----

  predicate WordFields(segments: seq<string>, abc: Alphabet)
  {
    forall f | f in segments :: Word(f, abc)
  }

  lemma WordJoin(a: string, b: string, abc: Alphabet)
    ensures Word(a + b, abc) <==> Word(a, abc) && Word(b, abc)
  {
    assert forall c :: c in a + b <==> c in a || c in b;
  }

  lemma {:induction false} JoinIsWord(segments: seq<string>, abc: Alphabet)
    ensures Word(Join(segments, '_'), abc) <==> WordFields(segments, abc)
  {
    if |segments| > 1 {
      var n := |segments| - 1;
      var init, last := segments[..n], segments[n];
      JoinIsWord(init, abc);
      WordJoin(Join(init, '_') + ['_'], last, abc);
      WordJoin(Join(init, '_'), ['_'], abc);
      assert segments == init + [last];
    }
  }

  /** The property name of a path is one identifier exactly when each of its fields has only word characters. */
  lemma PropNameReadsBack(segments: seq<string>, abc: Alphabet)
    ensures ReadsBack(PropName(segments), abc) <==> WordFields(segments, abc)
  {
    var tail := if segments == [] then "state" else Join(segments, '_');
    JoinIsWord(segments, abc);
    WordJoin("prop_", tail, abc);
    assert PropName(segments)[0] == 'p';
    ReadsBackIffIdentifier(PropName(segments), abc);
  }
}
