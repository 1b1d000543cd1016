/**
 Byte encodings that are hashed or signed: the `content_digest` preimage
 (crates/floatile-core/src/install.rs:58-67), the detached-signature variant of it, and the DSSE
 pre-authentication encoding (crates/floatile-core/src/distribution.rs:348-373).

 Each encoding is proved injective by an explicit decoder that inverts it.
 */
module Encoding {
  import opened Prelude

  type Byte = n: nat | n < 256

  type Bytes = seq<Byte>

  const NUL: Byte := 0
  const SPACE: Byte := 32

  /** Splits at the first occurrence of a byte. */
  function SplitAt(b: Byte, s: Bytes): (r: Option<(Bytes, Bytes)>)
    ensures r.Some? ==> s == r.value.0 + [b] + r.value.1
  {
    if s == [] then None
    else if s[0] == b then Some(([], s[1..]))
    else
      var rest := SplitAt(b, s[1..]);
      if rest.None? then None else Some(([s[0]] + rest.value.0, rest.value.1))
  }

  lemma {:induction false} SplitAtFirst(b: Byte, head: Bytes, tail: Bytes)
    requires b !in head
    ensures SplitAt(b, head + [b] + tail) == Some((head, tail))
  {
    if head == [] {
      assert ([b] + tail)[1..] == tail;
      assert head + [b] + tail == [b] + tail;
    } else {
      SplitAtFirst(b, head[1..], tail);
      assert (head + [b] + tail)[1..] == head[1..] + [b] + tail;
      assert [head[0]] + head[1..] == head;
    }
  }

  // ---- Little-endian lengths ----

  function Pow256(k: nat): nat
  {
    if k == 0 then 1 else 256 * Pow256(k - 1)
  }

  function LittleEndian(n: nat, width: nat): (r: Bytes)
    ensures |r| == width
  {
    if width == 0 then [] else [n % 256] + LittleEndian(n / 256, width - 1)
  }

  function FromLittleEndian(s: Bytes): nat
  {
    if s == [] then 0 else s[0] + 256 * FromLittleEndian(s[1..])
  }

  lemma {:induction false} LittleEndianRoundTrip(n: nat, width: nat)
    requires n < Pow256(width)
    ensures FromLittleEndian(LittleEndian(n, width)) == n
  {
    if width > 0 {
      LittleEndianRoundTrip(n / 256, width - 1);
      assert LittleEndian(n, width)[1..] == LittleEndian(n / 256, width - 1);
    }
  }

  // ---- The content digest preimage ----

  datatype Entry = Entry(name: Bytes, content: Bytes)

  /** Byte order of names, the iteration order of the file map. */
  predicate Before(a: Bytes, b: Bytes)
  {
    b != [] && (a == [] || a[0] < b[0] || (a[0] == b[0] && Before(a[1..], b[1..])))
  }

  lemma {:induction false} BeforeAsymmetric(a: Bytes, b: Bytes)
    ensures !(Before(a, b) && Before(b, a))
    decreases |a|
  {
    if a != [] && b != [] && a[0] == b[0] {
      BeforeAsymmetric(a[1..], b[1..]);
    }
  }

  /** A file map in its iteration order. */
  ghost predicate Sorted(files: seq<Entry>)
  {
    forall i, j | 0 <= i < j < |files| :: Before(files[i].name, files[j].name)
  }

  /** What the host guarantees of a validated file set: NUL-free names, 64-bit lengths. */
  ghost predicate Validated(files: seq<Entry>)
  {
    && Sorted(files)
    && forall i | 0 <= i < |files| :: NUL !in files[i].name && |files[i].content| < Pow256(8)
  }

  function AsMap(files: seq<Entry>): map<Bytes, Bytes>
  {
    if files == [] then map[] else AsMap(files[1..])[files[0].name := files[0].content]
  }

  lemma {:induction false} EntryIsKey(files: seq<Entry>, i: nat)
    requires i < |files|
    ensures files[i].name in AsMap(files)
  {
    if i > 0 {
      EntryIsKey(files[1..], i - 1);
      assert files[1..][i - 1] == files[i];
    }
  }

  lemma {:induction false} KeyIsEntry(files: seq<Entry>, k: Bytes) returns (i: nat)
    requires k in AsMap(files)
    ensures i < |files| && files[i].name == k
  {
    if k == files[0].name {
      i := 0;
    } else {
      i := KeyIsEntry(files[1..], k);
      i := i + 1;
    }
  }

  lemma HeadIsLeast(files: seq<Entry>, k: Bytes)
    requires Sorted(files) && k in AsMap(files)
    ensures k == files[0].name || Before(files[0].name, k)
  {
    var i := KeyIsEntry(files, k);
  }

  lemma TailMap(files: seq<Entry>)
    requires Sorted(files) && files != []
    ensures AsMap(files[1..]) == AsMap(files) - {files[0].name}
  {
    var head, tail := files[0].name, AsMap(files[1..]);
    if head in tail {
      var i := KeyIsEntry(files[1..], head);
      BeforeAsymmetric(head, files[i + 1].name);
    }
    assert head !in tail;
    assert AsMap(files) == tail[head := files[0].content];
  }

  lemma EmptyMap(files: seq<Entry>)
    ensures AsMap(files) == map[] <==> files == []
  {
    if files != [] {
      assert files[0].name in AsMap(files);
    }
  }

  /** A map has one iteration order. */
  lemma {:induction false} SortedIsCanonical(a: seq<Entry>, b: seq<Entry>)
    requires Sorted(a) && Sorted(b) && AsMap(a) == AsMap(b)
    ensures a == b
  {
    if a == [] || b == [] {
      EmptyMap(a);
      EmptyMap(b);
    } else {
      assert a[0].name in AsMap(a) && b[0].name in AsMap(b);
      HeadIsLeast(a, b[0].name);
      HeadIsLeast(b, a[0].name);
      BeforeAsymmetric(a[0].name, b[0].name);
      assert AsMap(a)[a[0].name] == a[0].content && AsMap(b)[b[0].name] == b[0].content;
      TailMap(a);
      TailMap(b);
      SortedIsCanonical(a[1..], b[1..]);
      assert a == [a[0]] + a[1..] && b == [b[0]] + b[1..];
    }
  }

  function EncodeEntry(e: Entry): Bytes
  {
    e.name + [NUL] + (LittleEndian(|e.content|, 8) + e.content)
  }

  function Preimage(files: seq<Entry>): Bytes
  {
    if files == [] then [] else EncodeEntry(files[0]) + Preimage(files[1..])
  }

  /** `content_digest`: the bytes the hasher is fed, entry by entry in iteration order. */
  method FeedHasher(files: seq<Entry>) returns (fed: Bytes)
    ensures fed == Preimage(files)
  {
    fed := [];
    assert files[0..] == files;
    for i := 0 to |files|
      invariant fed + Preimage(files[i..]) == Preimage(files)
    {
      var e := files[i];
      PreimageFrom(files, i);
      AppendAssociative(fed, EncodeEntry(e), Preimage(files[i + 1..]));
      AppendEntry(fed, e);
      fed := fed + e.name;
      fed := fed + [NUL];
      fed := fed + LittleEndian(|e.content|, 8);
      fed := fed + e.content;
    }
    assert files[|files|..] == [];
  }

  lemma PreimageFrom(files: seq<Entry>, i: nat)
    requires i < |files|
    ensures Preimage(files[i..]) == EncodeEntry(files[i]) + Preimage(files[i + 1..])
  {
    assert files[i..][1..] == files[i + 1..];
  }

  lemma AppendAssociative(a: Bytes, b: Bytes, c: Bytes)
    ensures a + (b + c) == a + b + c
  {
  }

  lemma AppendEntry(fed: Bytes, e: Entry)
    ensures fed + EncodeEntry(e) == fed + e.name + [NUL] + LittleEndian(|e.content|, 8) + e.content
  {
  }

  /** Reads one entry back off the front of a preimage. */
  function DecodeEntry(s: Bytes): (r: Option<(Entry, Bytes)>)
    ensures r.Some? ==> |r.value.1| < |s|
  {
    var split := SplitAt(NUL, s);
    if split.None? || |split.value.1| < 8 then None
    else
      var (name, rest) := split.value;
      var length := FromLittleEndian(rest[..8]);
      if |rest| < 8 + length then None
      else Some((Entry(name, rest[8..8 + length]), rest[8 + length..]))
  }

  function Decode(s: Bytes): Option<seq<Entry>>
    decreases |s|
  {
    if s == [] then Some([])
    else
      var first := DecodeEntry(s);
      if first.None? then None
      else
        var rest := Decode(first.value.1);
        if rest.None? then None else Some([first.value.0] + rest.value)
  }

  lemma DecodeEntryInverts(e: Entry, tail: Bytes)
    requires NUL !in e.name && |e.content| < Pow256(8)
    ensures DecodeEntry(EncodeEntry(e) + tail) == Some((e, tail))
  {
    var length := LittleEndian(|e.content|, 8);
    var rest := length + e.content + tail;
    assert EncodeEntry(e) + tail == e.name + [NUL] + rest;
    SplitAtFirst(NUL, e.name, rest);
    assert rest[..8] == length;
    LittleEndianRoundTrip(|e.content|, 8);
    assert rest[8..8 + |e.content|] == e.content;
    assert rest[8 + |e.content|..] == tail;
  }

  /** The decoder inverts the preimage of every validated file set. */
  lemma {:induction false} DecodeInverts(files: seq<Entry>)
    requires Validated(files)
    ensures Decode(Preimage(files)) == Some(files)
  {
    if files != [] {
      DecodeInverts(files[1..]);
      DecodeEntryInverts(files[0], Preimage(files[1..]));
      assert [files[0]] + files[1..] == files;
    }
  }

  /** Two validated file sets are hashed alike exactly when they are the same map. */
  lemma PreimageInjective(a: seq<Entry>, b: seq<Entry>)
    requires Validated(a) && Validated(b)
    ensures Preimage(a) == Preimage(b) <==> AsMap(a) == AsMap(b)
  {
    DecodeInverts(a);
    DecodeInverts(b);
    if AsMap(a) == AsMap(b) {
      SortedIsCanonical(a, b);
    }
  }

  /** NUL-free names are needed: one NUL-bearing name imitates two files. */
  lemma NulNamesCollide()
    ensures var one := [Entry([120, 0, 0, 0, 0, 0, 0, 0, 0, 0, 121], [])];
            var two := [Entry([120], []), Entry([121], [])];
            Sorted(one) && Sorted(two) && Preimage(one) == Preimage(two) && AsMap(one) != AsMap(two)
  {
    var one := [Entry([120, 0, 0, 0, 0, 0, 0, 0, 0, 0, 121], [])];
    var two := [Entry([120], []), Entry([121], [])];
    var zeros: Bytes := [0, 0, 0, 0, 0, 0, 0, 0];
    assert LittleEndian(0, 8) == zeros by {
      forall n: nat | n <= 8
        ensures LittleEndian(0, n) == seq(n, i => 0)
      {
        ZeroLength(n);
      }
      assert seq(8, i => 0) == zeros;
    }
    assert one[1..] == [] && two[1..] == [two[1]] && two[1..][1..] == [];
    assert Preimage(two[1..]) == [121, 0] + zeros;
    assert Preimage(one) == [120, 0, 0, 0, 0, 0, 0, 0, 0, 0, 121, 0] + zeros;
    assert Preimage(two) == [120, 0] + zeros + [121, 0] + zeros;
    assert AsMap(one) == map[one[0].name := []] && one[0].name != two[1].name;
    EntryIsKey(two, 1);
  }

  lemma {:induction false} ZeroLength(n: nat)
    ensures LittleEndian(0, n) == seq(n, i => 0)
  {
    if n > 0 {
      ZeroLength(n - 1);
    }
  }

  // ---- The detached signature is the one file outside the signed digest ----

  // "signature.json"
  const SIGNATURE_FILE: Bytes := [115, 105, 103, 110, 97, 116, 117, 114, 101, 46, 106, 115, 111, 110]

  /** The entries of a file set whose name is not the excluded one. */
  function Without(files: seq<Entry>, excluded: Bytes): seq<Entry>
  {
    if files == [] then []
    else (if files[0].name == excluded then [] else [files[0]]) + Without(files[1..], excluded)
  }

  lemma {:induction false} WithoutKeepsEntries(files: seq<Entry>, excluded: Bytes)
    ensures forall e | e in Without(files, excluded) :: e in files
  {
    if files != [] {
      WithoutKeepsEntries(files[1..], excluded);
      assert forall e | e in files[1..] :: e in files;
    }
  }

  lemma PrependValidated(e: Entry, rest: seq<Entry>)
    requires Validated(rest) && NUL !in e.name && |e.content| < Pow256(8)
    requires forall other | other in rest :: Before(e.name, other.name)
    ensures Validated([e] + rest)
  {
    var all := [e] + rest;
    forall i, j | 0 <= i < j < |all|
      ensures Before(all[i].name, all[j].name)
    {
      assert rest[j - 1] in rest;
    }
  }

  lemma {:induction false} WithoutKeepsOrder(files: seq<Entry>, excluded: Bytes)
    requires Validated(files)
    ensures Validated(Without(files, excluded))
  {
    if files != [] {
      var rest := Without(files[1..], excluded);
      WithoutKeepsOrder(files[1..], excluded);
      WithoutKeepsEntries(files[1..], excluded);
      if files[0].name == excluded {
        assert Without(files, excluded) == rest;
      } else {
        PrependValidated(files[0], rest);
      }
    }
  }

  lemma {:induction false} WithoutAsMap(files: seq<Entry>, excluded: Bytes)
    requires Sorted(files)
    ensures AsMap(Without(files, excluded)) == AsMap(files) - {excluded}
  {
    if files != [] {
      var rest := Without(files[1..], excluded);
      WithoutAsMap(files[1..], excluded);
      TailMap(files);
      if files[0].name == excluded {
        assert Without(files, excluded) == rest;
      } else {
        assert ([files[0]] + rest)[1..] == rest;
      }
    }
  }

  /** `signable_content_digest`: equal signed preimages mean equal packages off the signature file. */
  lemma {:induction false} SignablePreimageInjective(a: seq<Entry>, b: seq<Entry>)
    requires Validated(a) && Validated(b)
    ensures Preimage(Without(a, SIGNATURE_FILE)) == Preimage(Without(b, SIGNATURE_FILE))
       <==> AsMap(a) - {SIGNATURE_FILE} == AsMap(b) - {SIGNATURE_FILE}
  {
    WithoutKeepsOrder(a, SIGNATURE_FILE);
    WithoutKeepsOrder(b, SIGNATURE_FILE);
    WithoutAsMap(a, SIGNATURE_FILE);
    WithoutAsMap(b, SIGNATURE_FILE);
    PreimageInjective(Without(a, SIGNATURE_FILE), Without(b, SIGNATURE_FILE));
  }

  // ---- DSSE pre-authentication encoding ----

  /** Decimal print of a length, as ASCII. */
  function Decimal(n: nat): (r: Bytes)
    ensures forall b | b in r :: 48 <= b < 58
  {
    if n < 10 then [48 + n] else Decimal(n / 10) + [48 + n % 10]
  }

  function FromDecimal(s: Bytes): int
  {
    if s == [] then 0 else 10 * FromDecimal(s[..|s| - 1]) + (s[|s| - 1] as int - 48)
  }

  lemma {:induction false} DecimalRoundTrip(n: nat)
    ensures FromDecimal(Decimal(n)) == n
  {
    var s := Decimal(n);
    if n < 10 {
      assert s[..0] == [];
    } else {
      DecimalRoundTrip(n / 10);
      assert s[..|s| - 1] == Decimal(n / 10);
    }
  }

  // "DSSEv1 "
  const MAGIC: Bytes := [68, 83, 83, 69, 118, 49, 32]

  function Pae(payloadType: Bytes, payload: Bytes): Bytes
  {
    MAGIC + (Decimal(|payloadType|) + [SPACE] +
             (payloadType + ([SPACE] + (Decimal(|payload|) + [SPACE] + payload))))
  }

  /** A length-prefixed field: decimal length, a space, that many bytes. */
  function DecodeField(s: Bytes): Option<(Bytes, Bytes)>
  {
    var split := SplitAt(SPACE, s);
    if split.None? then None
    else
      var (digits, rest) := split.value;
      var length := FromDecimal(digits);
      if !(0 <= length <= |rest|) then None else Some((rest[..length], rest[length..]))
  }

  function DecodePae(s: Bytes): Option<(Bytes, Bytes)>
  {
    if !(MAGIC <= s) then None
    else
      var first := DecodeField(s[|MAGIC|..]);
      if first.None? || first.value.1 == [] || first.value.1[0] != SPACE then None
      else
        var second := DecodeField(first.value.1[1..]);
        if second.None? || second.value.1 != [] then None else Some((first.value.0, second.value.0))
  }

  lemma DecodeFieldInverts(field: Bytes, tail: Bytes)
    ensures DecodeField(Decimal(|field|) + [SPACE] + (field + tail)) == Some((field, tail))
  {
    SplitAtFirst(SPACE, Decimal(|field|), field + tail);
    DecimalRoundTrip(|field|);
  }

  /** The encoding is invertible for every type and payload, whatever spaces or digits they hold. */
  lemma DecodePaeInverts(payloadType: Bytes, payload: Bytes)
    ensures DecodePae(Pae(payloadType, payload)) == Some((payloadType, payload))
  {
    var second := Decimal(|payload|) + [SPACE] + payload;
    var first := Decimal(|payloadType|) + [SPACE] + (payloadType + ([SPACE] + second));
    assert Pae(payloadType, payload)[|MAGIC|..] == first;
    DecodeFieldInverts(payloadType, [SPACE] + second);
    assert ([SPACE] + second)[1..] == second;
    assert payload + [] == payload;
    DecodeFieldInverts(payload, []);
  }

  lemma PaeInjective(t1: Bytes, p1: Bytes, t2: Bytes, p2: Bytes)
    ensures Pae(t1, p1) == Pae(t2, p2) ==> t1 == t2 && p1 == p2
  {
    DecodePaeInverts(t1, p1);
    DecodePaeInverts(t2, p2);
  }
}
