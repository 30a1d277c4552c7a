// Encoding and decoding whole texts (python/xecuda/tokenizer.py), as functions of a vocabulary.
// Texts and tokens are sequences of characters; bytes appear only between them.
module Encoding {
  import opened Strings
  import opened Options
  import opened ByteAlphabet
  import opened BytePairs
  import opened PreTokenizer
  import opened Utf8

  // specials lists the special tokens in the order of the source's dictionary.
  datatype Vocabulary = Vocabulary(
    tokens: seq<Str>,
    tokenToId: map<Str, nat>,
    ranks: Ranks,
    specials: seq<Str>,
    specialToId: map<Str, nat>,
    specialIds: set<nat>)

  ghost predicate Indexes(tokens: seq<Str>, ids: map<Str, nat>) {
    forall t :: t in ids ==> ids[t] < |tokens| && tokens[ids[t]] == t
  }

  // What the constructor establishes.
  ghost predicate VocabularyOk(v: Vocabulary) {
    && RanksOk(v.ranks)
    && Indexes(v.tokens, v.tokenToId) && (forall k :: 0 <= k < |v.tokens| ==> v.tokens[k] in v.tokenToId)
    && Indexes(v.tokens, v.specialToId) && (forall t :: t in v.specialToId <==> t in v.specials)
    && (forall t :: t in v.specialToId ==> v.specialToId[t] in v.specialIds)
  }

  // ---- splitting at special tokens --------------------------------------------------------------

  // The first special token, in order, that the text has at i; |specials| when there is none.
  function FirstAt(specials: seq<Str>, text: Str, i: nat): (k: nat)
    requires i <= |text|
    ensures k <= |specials|
    ensures forall m :: 0 <= m < k ==> !(specials[m] <= text[i..])
    ensures k < |specials| ==> specials[k] <= text[i..]
  {
    if specials == [] then 0
    else if specials[0] <= text[i..] then 0
    else FirstAt(specials[1..], text, i) + 1
  }

  predicate NonEmpty(specials: seq<Str>) {
    forall k :: 0 <= k < |specials| ==> specials[k] != []
  }

  // The text from `from`, with no special token found before i: what is before the leftmost
  // special token, that token, and the split of what follows.
  function Split(specials: seq<Str>, text: Str, from: nat, i: nat): (parts: seq<Str>)
    requires NonEmpty(specials) && from <= i <= |text|
    ensures |parts| % 2 == 1
    decreases |text| - i
  {
    if i == |text| then [text[from..]]
    else
      var k := FirstAt(specials, text, i);
      if k == |specials| then Split(specials, text, from, i + 1)
      else [text[from..i], specials[k]] + Split(specials, text, i + |specials[k]|, i + |specials[k]|)
  }

  lemma {:induction false} SplitJoins(specials: seq<Str>, text: Str, from: nat, i: nat)
    requires NonEmpty(specials) && from <= i <= |text|
    ensures Join(Split(specials, text, from, i)) == text[from..]
    decreases |text| - i
  {
    if i == |text| {
      assert [text[from..]][1..] == [];
    } else {
      var k := FirstAt(specials, text, i);
      if k == |specials| {
        SplitJoins(specials, text, from, i + 1);
      } else {
        var j := i + |specials[k]|;
        SplitJoins(specials, text, j, j);
        JoinTwo(text[from..i], specials[k], Split(specials, text, j, j));
        assert text[i..j] == specials[k];
        assert text[from..] == text[from..i] + text[i..j] + text[j..];
      }
    }
  }

  lemma JoinTwo(a: Str, b: Str, rest: Word)
    ensures Join([a, b] + rest) == a + b + Join(rest)
  {
    assert ([a, b] + rest)[1..] == [b] + rest;
    assert ([b] + rest)[1..] == rest;
  }

  ghost predicate Clear(specials: seq<Str>, text: Str, from: nat, i: nat)
    requires i <= |text|
  {
    forall p :: from <= p < i ==> FirstAt(specials, text, p) == |specials|
  }

  lemma ClearIsPlain(specials: seq<Str>, text: Str, from: nat, i: nat, m: nat)
    requires NonEmpty(specials) && from <= i <= |text| && Clear(specials, text, from, i) && m < |specials|
    ensures text[from..i] != specials[m]
  {
    assert text[from..i] <= text[from..];
    if from < i {
      assert FirstAt(specials, text, from) == |specials|;
    }
  }

  // Parts alternate: what lies between special tokens is never one itself.
  lemma {:induction false} SplitAlternates(specials: seq<Str>, text: Str, from: nat, i: nat)
    requires NonEmpty(specials) && from <= i <= |text| && Clear(specials, text, from, i)
    ensures forall p :: 0 <= p < |Split(specials, text, from, i)| ==> (Split(specials, text, from, i)[p] in specials <==> p % 2 == 1)
    decreases |text| - i
  {
    forall m | 0 <= m < |specials| ensures text[from..i] != specials[m] {
      ClearIsPlain(specials, text, from, i, m);
    }
    if i == |text| {
      assert text[from..] == text[from..i];
    } else {
      var k := FirstAt(specials, text, i);
      if k == |specials| {
        SplitAlternates(specials, text, from, i + 1);
      } else {
        var j := i + |specials[k]|;
        var rest := Split(specials, text, j, j);
        SplitAlternates(specials, text, j, j);
        forall p | 0 <= p < |rest| + 2 ensures ([text[from..i], specials[k]] + rest)[p] in specials <==> p % 2 == 1 {
          if p >= 2 { assert rest[p - 2] in specials <==> (p - 2) % 2 == 1; }
        }
      }
    }
  }

  ghost predicate NoneStarts(specials: seq<Str>, text: Str, q: nat)
    requires q <= |text|
  {
    forall m :: 0 <= m < |specials| ==> !(specials[m] <= text[q..])
  }

  // The part begins at q and is the first special token listed that does.
  ghost predicate FirstStarts(specials: seq<Str>, text: Str, q: nat, part: Str)
    requires q <= |text|
  {
    exists k :: 0 <= k < |specials| && specials[k] <= text[q..] && specials[k] == part && forall m :: 0 <= m < k ==> !(specials[m] <= text[q..])
  }

  // The parts lie one behind the other at the places at.  At no position of an ordinary part does
  // a special token begin, and every other part is the special token to be taken where it stands.
  ghost predicate Leftmost(specials: seq<Str>, text: Str, parts: seq<Str>, at: seq<nat>) {
    && |at| == |parts| + 1 && (forall p :: 0 <= p < |parts| ==> PartAt(specials, text, parts[p], at[p], at[p + 1], p % 2 == 1))
  }

  ghost predicate PartAt(specials: seq<Str>, text: Str, part: Str, a: nat, b: nat, special: bool) {
    && a <= b <= |text| && part == text[a..b]
    && if special then FirstStarts(specials, text, a, part) else forall q :: a <= q < b ==> NoneStarts(specials, text, q)
  }

  lemma ClearPart(specials: seq<Str>, text: Str, from: nat, i: nat)
    requires from <= i <= |text| && Clear(specials, text, from, i)
    ensures PartAt(specials, text, text[from..i], from, i, false)
  {
    forall q | from <= q < i ensures NoneStarts(specials, text, q) {
      assert FirstAt(specials, text, q) == |specials|;
    }
  }

  lemma SpecialPart(specials: seq<Str>, text: Str, i: nat, k: nat)
    requires i <= |text| && k == FirstAt(specials, text, i) < |specials|
    ensures i + |specials[k]| <= |text| && PartAt(specials, text, specials[k], i, i + |specials[k]|, true)
  {
    assert specials[k] <= text[i..];
    assert text[i..i + |specials[k]|] == text[i..][..|specials[k]|];
  }

  lemma LeftmostCons(specials: seq<Str>, text: Str, from: nat, i: nat, token: Str, rest: seq<Str>, at: seq<nat>)
    requires Leftmost(specials, text, rest, at) && i + |token| == at[0]
    requires i <= |text| && from <= i && PartAt(specials, text, text[from..i], from, i, false) && PartAt(specials, text, token, i, i + |token|, true)
    ensures Leftmost(specials, text, [text[from..i], token] + rest, [from, i] + at)
  {
    hide PartAt;
    var parts, places := [text[from..i], token] + rest, [from, i] + at;
    forall p | 0 <= p < |parts| ensures PartAt(specials, text, parts[p], places[p], places[p + 1], p % 2 == 1) {
      if p >= 2 {
        assert parts[p] == rest[p - 2] && places[p] == at[p - 2] && places[p + 1] == at[p - 1];
        assert PartAt(specials, text, rest[p - 2], at[p - 2], at[p - 1], (p - 2) % 2 == 1);
      }
    }
  }

  lemma {:induction false} SplitIsLeftmost(specials: seq<Str>, text: Str, from: nat, i: nat) returns (at: seq<nat>)
    requires NonEmpty(specials) && from <= i <= |text| && Clear(specials, text, from, i)
    ensures var parts := Split(specials, text, from, i); Leftmost(specials, text, parts, at) && at[0] == from && at[|parts|] == |text|
    decreases |text| - i
  {
    ClearPart(specials, text, from, i);
    if i == |text| {
      assert text[from..] == text[from..i];
      at := [from, i];
    } else {
      var k := FirstAt(specials, text, i);
      if k == |specials| {
        at := SplitIsLeftmost(specials, text, from, i + 1);
      } else {
        var j := i + |specials[k]|;
        SpecialPart(specials, text, i, k);
        var rest := SplitIsLeftmost(specials, text, j, j);
        LeftmostCons(specials, text, from, i, specials[k], Split(specials, text, j, j), rest);
        at := [from, i] + rest;
      }
    }
  }

  // An ordinary part has no special token in it, nor one that begins in it.
  lemma OrdinaryHoldsNone(specials: seq<Str>, text: Str, part: Str, a: nat, b: nat, q: nat, t: Str)
    requires PartAt(specials, text, part, a, b, false) && t in specials && q < |part|
    ensures !(t <= part[q..])
  {
    var m :| 0 <= m < |specials| && specials[m] == t;
    assert NoneStarts(specials, text, a + q);
    assert text[a + q..] == part[q..] + text[b..];
  }

  // ---- encoding ------------------------------------------------------------------------------------

  function Raw(bytes: Str): (s: Str)
    ensures |s| == |bytes|
  {
    seq(|bytes|, i requires 0 <= i < |bytes| => ByteChar(bytes[i]))
  }

  ghost predicate IsBytes(s: Str) {
    forall i :: 0 <= i < |s| ==> s[i] < BYTES
  }

  // The ids of the symbols, or none when the vocabulary lacks one.
  function Lookup(ids: map<Str, nat>, w: Word): Option<seq<nat>> {
    if w == [] then Some([])
    else if w[0] !in ids then None
    else Prepend([ids[w[0]]], Lookup(ids, w[1..]))
  }

  function Prepend(a: seq<nat>, b: Option<seq<nat>>): Option<seq<nat>> {
    if b == None then None else Some(a + b.value)
  }

  ghost function PieceIds(v: Vocabulary, pieces: Word): Option<seq<nat>> {
    if pieces == [] then Some([])
    else
      var first := Lookup(v.tokenToId, Encode(v.ranks, Chars(pieces[0])));
      if first == None then None else Prepend(first.value, PieceIds(v, pieces[1..]))
  }

  // A special token is one id; other text with a surrogate in it has no UTF-8 bytes.
  ghost function PartIds(v: Vocabulary, part: Str): Option<seq<nat>> {
    if part in v.specialToId then Some([v.specialToId[part]])
    else if !IsText(part) then None
    else PieceIds(v, FindAll(Raw(ToUtf8(part)), 0))
  }

  ghost function AllIds(v: Vocabulary, parts: Word): Option<seq<nat>> {
    if parts == [] then Some([])
    else
      var first := PartIds(v, parts[0]);
      if first == None then None else Prepend(first.value, AllIds(v, parts[1..]))
  }

  ghost function TextIds(v: Vocabulary, text: Str): Option<seq<nat>>
    requires NonEmpty(v.specials)
  {
    AllIds(v, Split(v.specials, text, 0, 0))
  }

  // ---- decoding -----------------------------------------------------------------------------------------

  function Spell(v: Vocabulary, ids: seq<nat>, skip: bool): Option<Str> {
    if ids == [] then Some([])
    else if ids[0] in v.specialIds && skip then Spell(v, ids[1..], skip)
    else if ids[0] >= |v.tokens| then None
    else
      var rest := Spell(v, ids[1..], skip);
      if rest == None then None else Some(v.tokens[ids[0]] + rest.value)
  }

  function Kept(v: Vocabulary, ids: seq<nat>): seq<nat> {
    if ids == [] then [] else (if ids[0] in v.specialIds then [] else [ids[0]]) + Kept(v, ids[1..])
  }

  // Skipping the special tokens is decoding the other ids.
  lemma {:induction false} SkippingIsDropping(v: Vocabulary, ids: seq<nat>)
    ensures Spell(v, ids, true) == Spell(v, Kept(v, ids), false)
  {
    if ids != [] {
      SkippingIsDropping(v, ids[1..]);
      if ids[0] in v.specialIds {
        assert [] + Kept(v, ids[1..]) == Kept(v, ids[1..]);
      } else {
        assert ([ids[0]] + Kept(v, ids[1..]))[1..] == Kept(v, ids[1..]);
      }
    }
  }

  ghost predicate StandsForByte(c: nat) {
    exists b: nat :: b < BYTES && ByteChar(b) == c
  }

  ghost predicate Known(s: Str) {
    forall i :: 0 <= i < |s| ==> StandsForByte(s[i])
  }

  ghost function ByteOf(c: nat): (b: nat)
    requires StandsForByte(c)
    ensures b < BYTES && ByteChar(b) == c
  {
    var b: nat :| b < BYTES && ByteChar(b) == c;
    b
  }

  ghost function BytesOf(s: Str): (b: Str)
    requires Known(s)
    ensures |b| == |s|
  {
    seq(|s|, i requires 0 <= i < |s| => ByteOf(s[i]))
  }

  // The text of the bytes, or the characters as they are when one of them stands for no byte.
  ghost function Unspell(s: Str): Str {
    if Known(s) then FromUtf8(BytesOf(s)) else s
  }

  // None when an id names no token.
  ghost function Decode(v: Vocabulary, ids: seq<nat>, skip: bool): Option<Str> {
    var s := Spell(v, ids, skip);
    if s == None then None else Some(Unspell(s.value))
  }

  // ---- ids spell their symbols ------------------------------------------------------------------------------

  lemma {:induction false} SpellConcat(v: Vocabulary, a: seq<nat>, b: seq<nat>)
    requires Spell(v, a, false).Some? && Spell(v, b, false).Some?
    ensures Spell(v, a + b, false) == Some(Spell(v, a, false).value + Spell(v, b, false).value)
  {
    if a == [] {
      assert a + b == b;
      assert [] + Spell(v, b, false).value == Spell(v, b, false).value;
    } else {
      assert (a + b)[1..] == a[1..] + b;
      SpellConcat(v, a[1..], b);
      var x, y, z := v.tokens[a[0]], Spell(v, a[1..], false).value, Spell(v, b, false).value;
      assert x + (y + z) == (x + y) + z;
    }
  }

  lemma {:induction false} LookupSpells(v: Vocabulary, w: Word)
    requires VocabularyOk(v) && BytePairs.Known(v.tokenToId.Keys, w)
    ensures Lookup(v.tokenToId, w).Some? && Spell(v, Lookup(v.tokenToId, w).value, false) == Some(Join(w))
  {
    if w != [] {
      assert w[0] in v.tokenToId.Keys;
      assert forall k :: 0 <= k < |w[1..]| ==> w[1..][k] == w[k + 1];
      LookupSpells(v, w[1..]);
      var id, rest := v.tokenToId[w[0]], Lookup(v.tokenToId, w[1..]).value;
      assert ([id] + rest)[1..] == rest;
    }
  }

  // Every byte has a token of its own, and every merge makes one.
  ghost predicate Complete(v: Vocabulary) {
    && (forall b: nat :: b < BYTES ==> [ByteChar(b)] in v.tokenToId)
    && Closed(v.ranks, v.tokenToId.Keys)
  }

  ghost predicate Spellable(v: Vocabulary, s: Str) {
    BytePairs.Known(v.tokenToId.Keys, Chars(s))
  }

  ghost predicate AllSpellable(v: Vocabulary, pieces: Word) {
    forall k :: 0 <= k < |pieces| ==> Spellable(v, pieces[k])
  }

  lemma RawSpellable(v: Vocabulary, bytes: Str)
    requires Complete(v) && IsBytes(bytes)
    ensures Spellable(v, Raw(bytes)) && ByteEncoded(Raw(bytes))
  {
    forall i | 0 <= i < |bytes| ensures InAlphabet(Raw(bytes)[i]) && Chars(Raw(bytes))[i] in v.tokenToId.Keys {
      ByteCharInAlphabet(bytes[i]);
      assert Chars(Raw(bytes))[i] == [ByteChar(bytes[i])];
    }
  }

  lemma SliceSpellable(v: Vocabulary, s: Str, i: nat, j: nat)
    requires Spellable(v, s) && i <= j <= |s|
    ensures Spellable(v, s[i..j])
  {
    forall k | 0 <= k < j - i ensures Chars(s[i..j])[k] in v.tokenToId.Keys {
      assert Chars(s[i..j])[k] == Chars(s)[i + k];
    }
  }

  lemma {:induction false} PiecesSpellable(v: Vocabulary, s: Str, i: nat)
    requires Spellable(v, s) && i <= |s|
    ensures AllSpellable(v, Pieces(s, i))
    decreases |s| - i
  {
    if i < |s| {
      var j := NextEnd(s, i);
      SliceSpellable(v, s, i, j);
      PiecesSpellable(v, s, j);
      assert Pieces(s, i) == [s[i..j]] + Pieces(s, j);
    }
  }

  lemma PieceSpells(v: Vocabulary, piece: Str)
    requires VocabularyOk(v) && Complete(v) && Spellable(v, piece)
    ensures var first := Lookup(v.tokenToId, Encode(v.ranks, Chars(piece)));
            first.Some? && Spell(v, first.value, false) == Some(piece)
  {
    EncodeKnown(v.ranks, v.tokenToId.Keys, Chars(piece));
    EncodeKeepsText(v.ranks, Chars(piece));
    JoinChars(piece);
    LookupSpells(v, Encode(v.ranks, Chars(piece)));
  }

  lemma {:induction false} PiecesSpell(v: Vocabulary, pieces: Word)
    requires VocabularyOk(v) && Complete(v) && AllSpellable(v, pieces)
    ensures PieceIds(v, pieces).Some? && Spell(v, PieceIds(v, pieces).value, false) == Some(Join(pieces))
  {
    if pieces != [] {
      assert Spellable(v, pieces[0]);
      PieceSpells(v, pieces[0]);
      assert forall k :: 0 <= k < |pieces[1..]| ==> pieces[1..][k] == pieces[k + 1];
      PiecesSpell(v, pieces[1..]);
      SpellConcat(v, Lookup(v.tokenToId, Encode(v.ranks, Chars(pieces[0]))).value, PieceIds(v, pieces[1..]).value);
    }
  }

  lemma RawFound(part: Str)
    requires IsText(part)
    ensures forall k :: 0 <= k < |FindAll(Raw(ToUtf8(part)), 0)| ==> FindAll(Raw(ToUtf8(part)), 0)[k] != []
  {
    var bytes := ToUtf8(part);
    EncodesBytes(part);
    forall i | 0 <= i < |bytes| ensures InAlphabet(Raw(bytes)[i]) {
      ByteCharInAlphabet(bytes[i]);
    }
    FindAllPartitions(Raw(bytes));
  }

  // How a part comes back: a special token as it is, other text byte by byte.
  function Shown(v: Vocabulary, part: Str): Str
    requires IsText(part)
  {
    if part in v.specialToId then part else Raw(ToUtf8(part))
  }

  ghost predicate AllText(parts: Word) {
    forall k :: 0 <= k < |parts| ==> IsText(parts[k])
  }

  ghost function ShownAll(v: Vocabulary, parts: Word): Str
    requires AllText(parts)
  {
    if parts == [] then [] else Shown(v, parts[0]) + ShownAll(v, parts[1..])
  }

  lemma PartSpells(v: Vocabulary, part: Str)
    requires VocabularyOk(v) && Complete(v) && IsText(part)
    ensures PartIds(v, part).Some? && Spell(v, PartIds(v, part).value, false) == Some(Shown(v, part))
  {
    if part in v.specialToId {
      var id := v.specialToId[part];
      assert [id][1..] == [];
      assert v.tokens[id] + [] == part;
    } else {
      var bytes := ToUtf8(part);
      EncodesBytes(part);
      RawSpellable(v, bytes);
      FindAllIsPieces(Raw(bytes), 0);
      PiecesSpellable(v, Raw(bytes), 0);
      PiecesSpell(v, FindAll(Raw(bytes), 0));
      FindAllPartitions(Raw(bytes));
    }
  }

  lemma {:induction false} PartsSpell(v: Vocabulary, parts: Word)
    requires VocabularyOk(v) && Complete(v) && AllText(parts)
    ensures AllIds(v, parts).Some? && Spell(v, AllIds(v, parts).value, false) == Some(ShownAll(v, parts))
  {
    hide PartIds, VocabularyOk, Complete;
    if parts != [] {
      PartSpells(v, parts[0]);
      PartsSpell(v, parts[1..]);
      SpellConcat(v, PartIds(v, parts[0]).value, AllIds(v, parts[1..]).value);
    }
  }

  // ---- characters and bytes ---------------------------------------------------------------------------------

  predicate Plain(c: nat) {
    33 <= c <= 126
  }

  predicate AllPlain(s: Str) {
    forall i :: 0 <= i < |s| ==> Plain(s[i])
  }

  lemma ByteOfChar(b: nat)
    requires b < BYTES
    ensures StandsForByte(ByteChar(b)) && ByteOf(ByteChar(b)) == b
  {
    ByteCharInjective(ByteOf(ByteChar(b)), b);
  }

  lemma PlainStands(c: nat)
    requires Plain(c)
    ensures StandsForByte(c) && ByteOf(c) == c
  {
    ByteOfChar(c);
  }

  // Only visible ASCII is its own byte and ASCII too.
  lemma OwnByte(c: nat)
    requires StandsForByte(c)
    ensures c < REPLACEMENT
    ensures ByteOf(c) == c && c < 0x80 ==> Plain(c)
  {
    ByteCharInAlphabet(ByteOf(c));
  }

  lemma BytesOfRaw(b: Str)
    requires IsBytes(b)
    ensures Known(Raw(b)) && BytesOf(Raw(b)) == b
  {
    forall i | 0 <= i < |b| ensures StandsForByte(Raw(b)[i]) && ByteOf(Raw(b)[i]) == b[i] {
      ByteOfChar(b[i]);
    }
  }

  lemma BytesOfConcat(s: Str, t: Str)
    ensures Known(s + t) <==> Known(s) && Known(t)
    ensures Known(s) && Known(t) ==> BytesOf(s + t) == BytesOf(s) + BytesOf(t)
  {
    if Known(s + t) {
      forall i | 0 <= i < |s| ensures StandsForByte(s[i]) { assert (s + t)[i] == s[i]; }
      forall i | 0 <= i < |t| ensures StandsForByte(t[i]) { assert (s + t)[|s| + i] == t[i]; }
    }
  }

  lemma PlainBytes(s: Str)
    requires AllPlain(s)
    ensures Known(s) && BytesOf(s) == s && IsText(s) && ToUtf8(s) == s
  {
    forall i | 0 <= i < |s| ensures StandsForByte(s[i]) && ByteOf(s[i]) == s[i] {
      PlainStands(s[i]);
    }
    AsciiEncodes(s);
  }

  // A text comes back as its own bytes' characters exactly when it is visible ASCII.
  lemma RawIsSame(t: Str)
    requires IsText(t)
    ensures Raw(ToUtf8(t)) == t <==> AllPlain(t)
  {
    if AllPlain(t) { PlainBytes(t); }
    if Raw(ToUtf8(t)) == t {
      EncodesNoShorter(t);
      forall i | 0 <= i < |t| ensures Plain(t[i]) {
        assert Raw(t)[i] == ByteChar(t[i]);
      }
    }
  }

  // ---- when the text comes back ------------------------------------------------------------------------------

  ghost predicate SpecialsPlain(v: Vocabulary, parts: Word) {
    forall k :: 0 <= k < |parts| && parts[k] in v.specialToId ==> AllPlain(parts[k])
  }

  ghost predicate SpecialsKnown(v: Vocabulary, parts: Word) {
    forall k :: 0 <= k < |parts| && parts[k] in v.specialToId ==> Known(parts[k])
  }

  ghost predicate OthersPlain(v: Vocabulary, parts: Word) {
    forall k :: 0 <= k < |parts| && parts[k] !in v.specialToId ==> AllPlain(parts[k])
  }

  lemma Tails(v: Vocabulary, parts: Word)
    requires parts != []
    ensures SpecialsPlain(v, parts) <==> (parts[0] in v.specialToId ==> AllPlain(parts[0])) && SpecialsPlain(v, parts[1..])
    ensures SpecialsKnown(v, parts) <==> (parts[0] in v.specialToId ==> Known(parts[0])) && SpecialsKnown(v, parts[1..])
    ensures OthersPlain(v, parts) <==> (parts[0] !in v.specialToId ==> AllPlain(parts[0])) && OthersPlain(v, parts[1..])
  {
    var rest := parts[1..];
    assert forall k :: 0 <= k < |rest| ==> rest[k] == parts[k + 1];
    assert forall k :: 0 < k < |parts| ==> parts[k] == rest[k - 1];
  }

  // The bytes of the parts when every special token has bytes.
  ghost function PartBytes(v: Vocabulary, parts: Word): Str
    requires AllText(parts) && SpecialsKnown(v, parts)
  {
    if parts == [] then []
    else
      Tails(v, parts);
      (if parts[0] in v.specialToId then BytesOf(parts[0]) else ToUtf8(parts[0])) + PartBytes(v, parts[1..])
  }

  lemma {:induction false} ShownBytes(v: Vocabulary, parts: Word)
    requires AllText(parts)
    ensures Known(ShownAll(v, parts)) <==> SpecialsKnown(v, parts)
    ensures SpecialsKnown(v, parts) ==> BytesOf(ShownAll(v, parts)) == PartBytes(v, parts)
  {
    if parts == [] {
      assert BytesOf([]) == [];
    } else {
      Tails(v, parts);
      ShownBytes(v, parts[1..]);
      BytesOfConcat(Shown(v, parts[0]), ShownAll(v, parts[1..]));
      if parts[0] !in v.specialToId {
        EncodesBytes(parts[0]);
        BytesOfRaw(ToUtf8(parts[0]));
      }
    }
  }

  lemma BytesUnfold(v: Vocabulary, b: Str, parts: Word)
    requires parts != [] && AllText(parts) && SpecialsKnown(v, parts)
    ensures SpecialsKnown(v, parts[1..])
    ensures parts[0] in v.specialToId ==> Known(parts[0]) && b + PartBytes(v, parts) == (b + BytesOf(parts[0])) + PartBytes(v, parts[1..])
    ensures parts[0] !in v.specialToId ==> b + PartBytes(v, parts) == b + (ToUtf8(parts[0]) + PartBytes(v, parts[1..]))
  {
    Tails(v, parts);
    if parts[0] in v.specialToId { Associates(b, BytesOf(parts[0]), PartBytes(v, parts[1..])); }
  }

  // b + the bytes of the parts, where b has one byte for each character of w.
  ghost function Back(v: Vocabulary, b: Str, parts: Word): Str
    requires AllText(parts) && SpecialsKnown(v, parts)
  {
    FromUtf8(b + PartBytes(v, parts))
  }

  lemma BackNothing(v: Vocabulary, b: Str)
    ensures Back(v, b, []) == FromUtf8(b)
  {
    assert b + [] == b;
  }

  lemma BackText(v: Vocabulary, b: Str, parts: Word)
    requires parts != [] && AllText(parts) && SpecialsKnown(v, parts) && parts[0] !in v.specialToId && parts[0] != []
    ensures SpecialsKnown(v, parts[1..])
    ensures Back(v, b, parts) == FromUtf8(b) + (parts[0] + Back(v, [], parts[1..]))
  {
    BytesUnfold(v, b, parts);
    DecodesAround(b, parts[0], PartBytes(v, parts[1..]));
    assert [] + PartBytes(v, parts[1..]) == PartBytes(v, parts[1..]);
  }

  lemma BackEmpty(v: Vocabulary, b: Str, parts: Word)
    requires parts != [] && AllText(parts) && SpecialsKnown(v, parts) && parts[0] !in v.specialToId && parts[0] == []
    ensures SpecialsKnown(v, parts[1..])
    ensures Back(v, b, parts) == Back(v, b, parts[1..])
  {
    BytesUnfold(v, b, parts);
    assert [] + PartBytes(v, parts[1..]) == PartBytes(v, parts[1..]);
  }

  lemma {:induction false} BackNoLonger(v: Vocabulary, b: Str, parts: Word)
    requires AllText(parts) && SpecialsKnown(v, parts)
    ensures |Back(v, b, parts)| <= |b| + |Join(parts)|
    decreases |parts|
  {
    if parts == [] {
      BackNothing(v, b);
      DecodesNoLonger(b);
    } else {
      BytesUnfold(v, b, parts);
      if parts[0] in v.specialToId {
        BackNoLonger(v, b + BytesOf(parts[0]), parts[1..]);
      } else if parts[0] == [] {
        BackEmpty(v, b, parts);
        BackNoLonger(v, b, parts[1..]);
      } else {
        BackText(v, b, parts);
        DecodesNoLonger(b);
        BackNoLonger(v, [], parts[1..]);
      }
    }
  }

  lemma SplitSame(a: Str, b: Str, c: Str, x: Str, y: Str)
    requires a + (b + c) == x + (b + y) && |a| <= |x| && |c| <= |y|
    ensures a == x && c == y
  {
    var l, r := a + (b + c), x + (b + y);
    assert |a| == |x|;
    assert a == l[..|a|] && x == r[..|x|];
    assert c == l[|a| + |b|..] && y == r[|x| + |b|..];
  }

  lemma ReadPlain(w: Str)
    requires Known(w) && FromUtf8(BytesOf(w)) == w
    ensures AllPlain(w)
  {
    forall i | 0 <= i < |w| ensures w[i] != REPLACEMENT { OwnByte(w[i]); }
    OnePerByte(BytesOf(w));
    forall i | 0 <= i < |w| ensures Plain(w[i]) {
      assert BytesOf(w)[i] == ByteOf(w[i]) == w[i];
      OwnByte(w[i]);
    }
  }

  // If the text comes back, with w the special tokens met since the last other text, they are
  // all visible ASCII.
  lemma {:induction false} BackOnlyPlain(v: Vocabulary, w: Str, parts: Word)
    requires AllText(parts) && SpecialsKnown(v, parts) && Known(w) && Back(v, BytesOf(w), parts) == w + Join(parts)
    ensures AllPlain(w) && SpecialsPlain(v, parts)
    decreases |parts|
  {
    hide FromUtf8, ToUtf8;
    if parts == [] {
      BackNothing(v, BytesOf(w));
      assert w + [] == w;
      ReadPlain(w);
    } else {
      var s, rest := parts[0], parts[1..];
      BytesUnfold(v, BytesOf(w), parts);
      Tails(v, parts);
      if s in v.specialToId {
        BytesOfConcat(w, s);
        Associates(w, s, Join(rest));
        BackOnlyPlain(v, w + s, rest);
        assert forall i :: 0 <= i < |w| ==> (w + s)[i] == w[i];
        assert forall i :: 0 <= i < |s| ==> (w + s)[|w| + i] == s[i];
      } else if s == [] {
        BackEmpty(v, BytesOf(w), parts);
        assert [] + Join(rest) == Join(rest);
        BackOnlyPlain(v, w, rest);
      } else {
        BackText(v, BytesOf(w), parts);
        DecodesNoLonger(BytesOf(w));
        BackNoLonger(v, [], rest);
        SplitSame(FromUtf8(BytesOf(w)), s, Back(v, [], rest), w, Join(rest));
        ReadPlain(w);
        assert BytesOf([]) == [] && [] + Join(rest) == Join(rest);
        BackOnlyPlain(v, [], rest);
      }
    }
  }

  lemma {:induction false} PlainPartBytes(v: Vocabulary, parts: Word)
    requires AllText(parts) && SpecialsPlain(v, parts)
    ensures SpecialsKnown(v, parts) && IsText(Join(parts)) && PartBytes(v, parts) == ToUtf8(Join(parts))
  {
    if parts != [] {
      Tails(v, parts);
      PlainPartBytes(v, parts[1..]);
      if parts[0] in v.specialToId { PlainBytes(parts[0]); }
      EncodesConcat(parts[0], Join(parts[1..]));
    }
  }

  lemma BackExactly(v: Vocabulary, parts: Word)
    requires AllText(parts) && SpecialsKnown(v, parts)
    ensures FromUtf8(PartBytes(v, parts)) == Join(parts) <==> SpecialsPlain(v, parts)
  {
    if SpecialsPlain(v, parts) {
      PlainPartBytes(v, parts);
      DecodesText(Join(parts), []);
      assert ToUtf8(Join(parts)) + [] == ToUtf8(Join(parts)) && FromUtf8([]) == [] && Join(parts) + [] == Join(parts);
    }
    if FromUtf8(PartBytes(v, parts)) == Join(parts) {
      assert BytesOf([]) == [] && [] + PartBytes(v, parts) == PartBytes(v, parts) && [] + Join(parts) == Join(parts);
      BackOnlyPlain(v, [], parts);
    }
  }

  lemma ShownNoShorter(v: Vocabulary, part: Str)
    requires IsText(part)
    ensures |part| <= |Shown(v, part)|
    ensures Shown(v, part) == part <==> (part !in v.specialToId ==> AllPlain(part))
  {
    EncodesNoShorter(part);
    RawIsSame(part);
  }

  lemma JoinSame(a: Str, b: Str, c: Str, d: Str)
    requires |c| <= |a| && |d| <= |b|
    ensures a + b == c + d <==> a == c && b == d
  {
    if a + b == c + d {
      assert a == (a + b)[..|a|] && c == (c + d)[..|c|];
      assert b == (a + b)[|a|..] && d == (c + d)[|c|..];
    }
  }

  lemma {:induction false} ShownExactly(v: Vocabulary, parts: Word)
    requires AllText(parts)
    ensures |Join(parts)| <= |ShownAll(v, parts)|
    ensures ShownAll(v, parts) == Join(parts) <==> OthersPlain(v, parts)
  {
    if parts != [] {
      Tails(v, parts);
      ShownExactly(v, parts[1..]);
      ShownNoShorter(v, parts[0]);
      JoinSame(Shown(v, parts[0]), ShownAll(v, parts[1..]), parts[0], Join(parts[1..]));
    }
  }

  lemma {:induction false} JoinText(parts: Word)
    requires IsText(Join(parts))
    ensures AllText(parts)
  {
    if parts != [] {
      var rest := parts[1..];
      assert forall i :: 0 <= i < |parts[0]| ==> parts[0][i] == Join(parts)[i];
      assert forall i :: 0 <= i < |Join(rest)| ==> Join(rest)[i] == Join(parts)[|parts[0]| + i];
      JoinText(rest);
      assert forall k :: 0 < k < |parts| ==> parts[k] == rest[k - 1];
    }
  }

  // The special tokens in the text are visible ASCII; or one has a character that stands for no
  // byte, so that the characters are returned as they are, and the rest is visible ASCII.
  ghost predicate ComesBack(v: Vocabulary, parts: Word) {
    SpecialsPlain(v, parts) || (!SpecialsKnown(v, parts) && OthersPlain(v, parts))
  }

  // For every vocabulary that knows all bytes and all merges, every text is encoded without an
  // error, and decoding gives it back exactly in these two cases.
  lemma RoundTripExactly(v: Vocabulary, text: Str)
    requires VocabularyOk(v) && Complete(v) && NonEmpty(v.specials) && IsText(text)
    ensures TextIds(v, text).Some?
    ensures Decode(v, TextIds(v, text).value, false) == Some(text) <==> ComesBack(v, Split(v.specials, text, 0, 0))
  {
    hide VocabularyOk, Complete;
    var parts := Split(v.specials, text, 0, 0);
    SplitJoins(v.specials, text, 0, 0);
    assert text[0..] == text;
    JoinText(parts);
    PartsSpell(v, parts);
    ShownBytes(v, parts);
    if SpecialsKnown(v, parts) {
      BackExactly(v, parts);
    } else {
      ShownExactly(v, parts);
      if SpecialsPlain(v, parts) { PlainPartBytes(v, parts); }
    }
  }

  // With visible ASCII special tokens every text comes back.
  lemma RoundTrip(v: Vocabulary, text: Str)
    requires VocabularyOk(v) && Complete(v) && NonEmpty(v.specials) && IsText(text)
    requires forall k :: 0 <= k < |v.specials| ==> AllPlain(v.specials[k])
    ensures TextIds(v, text).Some? && Decode(v, TextIds(v, text).value, false) == Some(text)
  {
    RoundTripExactly(v, text);
  }

  // ---- two texts ---------------------------------------------------------------------------------------------

  lemma SpecialAlone(v: Vocabulary, text: Str)
    requires VocabularyOk(v) && v.specials == [text] && text != []
    ensures Split(v.specials, text, 0, 0) == [[], text, []]
  {
    var n := |text|;
    assert text[0..] == text && text <= text;
    assert Split(v.specials, text, n, n) == [[]];
  }

  // The special token é is one byte that begins no character.
  lemma AccentLost(v: Vocabulary, text: Str)
    requires VocabularyOk(v) && Complete(v) && v.specials == [text] && text == [233]
    ensures TextIds(v, text).Some? && Decode(v, TextIds(v, text).value, false) != Some(text)
  {
    RoundTripExactly(v, text);
    SpecialAlone(v, text);
    var parts := Split(v.specials, text, 0, 0);
    assert parts[1] == text && text in v.specialToId;
    ByteOfChar(233);
    assert parts[0] == [] == parts[2];
    assert SpecialsKnown(v, parts) && !AllPlain(parts[1]) by { assert !Plain(text[0]); }
  }

  // A special token with a space comes back as it is.
  lemma SpacedKept(v: Vocabulary, text: Str, k: nat)
    requires VocabularyOk(v) && Complete(v) && v.specials == [text] && IsText(text) && k < |text| && text[k] == 32
    ensures TextIds(v, text).Some? && Decode(v, TextIds(v, text).value, false) == Some(text)
  {
    RoundTripExactly(v, text);
    SpecialAlone(v, text);
    var parts := Split(v.specials, text, 0, 0);
    assert parts[1] == text && text in v.specialToId;
    assert !StandsForByte(text[k]);
    assert parts[0] == [] == parts[2];
  }
}
