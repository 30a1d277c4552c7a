// The tokenizer object: tables built once, and a memo of merged pieces that grows with use.
module Tokenizer {
  import opened Options
  import opened Strings
  import opened ByteAlphabet
  import opened BytePairs
  import opened PreTokenizer
  import opened Utf8
  import opened Encoding

  // ---- building the tables ---------------------------------------------------------------------

  // No token of the list from the index of t on, up to n, is t again.
  ghost predicate LastOne(tokens: seq<Str>, ids: map<Str, nat>, t: Str, n: nat)
    requires n <= |tokens|
  {
    t in ids ==> forall k :: ids[t] < k < n ==> tokens[k] != t
  }

  // A token that occurs more than once has its last index.
  method IndexTokens(tokens: seq<Str>) returns (ids: map<Str, nat>)
    ensures Indexes(tokens, ids)
    ensures forall k :: 0 <= k < |tokens| ==> tokens[k] in ids
    ensures forall t :: t in ids ==> LastOne(tokens, ids, t, |tokens|)
  {
    ids := map[];
    for i := 0 to |tokens|
      invariant Indexes(tokens, ids) && forall k :: 0 <= k < i ==> tokens[k] in ids
      invariant forall t :: t in ids ==> ids[t] < i && LastOne(tokens, ids, t, i)
    {
      ids := ids[tokens[i] := i];
    }
  }

  // At the first space; a text without one is an error.
  method SplitOnce(m: Str) returns (p: Option<Pair>)
    ensures if p.Some? then Halves(m, p.value) else SPACE !in m
  {
    for i := 0 to |m|
      invariant SPACE !in m[..i]
    {
      if m[i] == SPACE {
        return Some((m[..i], m[i + 1..]));
      }
    }
    return None;
  }

  // A merge without a space is an error.
  method RankMerges(merges: seq<Str>) returns (ranks: Option<Ranks>)
    ensures ranks.Some? <==> forall k :: 0 <= k < |merges| ==> SPACE in merges[k]
    ensures ranks.Some? ==> RanksOf(merges, |merges|, ranks.value)
  {
    var table: Ranks := map[];
    for rank := 0 to |merges|
      invariant RanksOf(merges, rank, table) && forall k :: 0 <= k < rank ==> SPACE in merges[k]
    {
      var p := SplitOnce(merges[rank]);
      if p.None? {
        return None;
      }
      RanksNext(merges, rank, table, p.value);
      table := table[p.value := rank];
    }
    return Some(table);
  }

  const SPECIAL := 3

  // The special tokens in the order of the list.
  function Chosen(tokens: seq<Str>, types: seq<int>): seq<Str>
    requires |types| <= |tokens|
  {
    if types == [] then []
    else
      var n := |types| - 1;
      Chosen(tokens, types[..n]) + if types[n] == 3 then [tokens[n]] else []
  }

  method Specials(tokens: seq<Str>, types: seq<int>) returns (specials: seq<Str>, ids: map<Str, nat>, members: set<nat>)
    requires |types| <= |tokens|
    ensures Indexes(tokens, ids) && forall t :: t in ids <==> t in specials
    ensures forall t :: t in ids ==> ids[t] in members
    ensures forall i :: i in members <==> 0 <= i < |types| && types[i] == SPECIAL
    ensures forall i :: i in members ==> tokens[i] in ids
    ensures specials == Chosen(tokens, types)
  {
    specials, ids, members := [], map[], {};
    for i := 0 to |types|
      invariant Indexes(tokens, ids) && forall t :: t in ids <==> t in specials
      invariant forall t :: t in ids ==> ids[t] in members
      invariant forall k :: k in members <==> 0 <= k < i && types[k] == SPECIAL
      invariant forall k :: k in members ==> tokens[k] in ids
      invariant specials == Chosen(tokens, types[..i])
    {
      assert types[..i + 1][..i] == types[..i];
      if types[i] == SPECIAL {
        specials := specials + [tokens[i]];
        ids := ids[tokens[i] := i];
        members := members + {i};
      }
    }
    assert types[..|types|] == types;
  }

  // ---- one merge round ---------------------------------------------------------------------------

  method GetPairs(word: Word) returns (pairs: set<Pair>)
    requires word != []
    ensures pairs == Pairs(word)
  {
    pairs := {};
    var prev := word[0];
    for k := 1 to |word|
      invariant prev == word[k - 1]
      invariant pairs == set m | 0 <= m < k - 1 :: PairAt(word, m)
    {
      pairs := pairs + {(prev, word[k])};
      assert PairAt(word, k - 1) == (prev, word[k]);
      prev := word[k];
    }
  }

  // tuple.index: the first occurrence from i on, or the length.
  method IndexOf(word: Word, x: Str, i: nat) returns (j: nat)
    requires i <= |word|
    ensures i <= j <= |word| && forall k :: i <= k < j ==> word[k] != x
    ensures j < |word| ==> word[j] == x
  {
    j := i;
    while j < |word| && word[j] != x
      invariant i <= j <= |word| && forall k :: i <= k < j ==> word[k] != x
    {
      j := j + 1;
    }
  }

  lemma MergeAt(word: Word, p: Pair, i: nat)
    requires i < |word|
    ensures i + 1 < |word| && (word[i], word[i + 1]) == p ==> Merge(word[i..], p) == [p.0 + p.1] + Merge(word[i + 2..], p)
    ensures !(i + 1 < |word| && (word[i], word[i + 1]) == p) ==> Merge(word[i..], p) == [word[i]] + Merge(word[i + 1..], p)
  {
    assert word[i..][1..] == word[i + 1..];
    if i + 1 < |word| {
      assert word[i..][2..] == word[i + 2..];
    }
  }

  // Symbols other than the pair's first are copied.
  lemma {:induction false} MergeSkips(word: Word, p: Pair, i: nat, j: nat)
    requires i <= j <= |word| && forall k :: i <= k < j ==> word[k] != p.0
    ensures Merge(word[i..], p) == word[i..j] + Merge(word[j..], p)
    decreases j - i
  {
    if i < j {
      MergeSkips(word, p, i + 1, j);
      MergeAt(word, p, i);
      assert word[i..j] == [word[i]] + word[i + 1..j];
    }
  }

  lemma AfterSkip(acc: Word, word: Word, p: Pair, i: nat, j: nat)
    requires i <= j <= |word| && forall k :: i <= k < j ==> word[k] != p.0
    ensures acc + word[i..j] + Merge(word[j..], p) == acc + Merge(word[i..], p)
  {
    MergeSkips(word, p, i, j);
  }

  lemma AfterSymbol(acc: Word, word: Word, p: Pair, i: nat)
    requires i < |word|
    ensures i + 1 < |word| && (word[i], word[i + 1]) == p ==> acc + [p.0 + p.1] + Merge(word[i + 2..], p) == acc + Merge(word[i..], p)
    ensures !(i + 1 < |word| && (word[i], word[i + 1]) == p) ==> acc + [word[i]] + Merge(word[i + 1..], p) == acc + Merge(word[i..], p)
  {
    MergeAt(word, p, i);
  }

  lemma MergeDone(acc: Word, word: Word, p: Pair)
    ensures acc + Merge(word[|word|..], p) == acc && word[0..] == word
  {
  }

  method MergeRound(word: Word, first: Str, second: Str) returns (newWord: Word)
    ensures newWord == Merge(word, (first, second))
  {
    hide Merge;
    ghost var p := (first, second);
    newWord := [];
    var i, n := 0, |word|;
    MergeDone(newWord, word, p);
    while i < n
      invariant 0 <= i <= n && newWord + Merge(word[i..], p) == Merge(word, p)
      decreases n - i
    {
      var j := IndexOf(word, first, i);
      AfterSkip(newWord, word, p, i, j);
      newWord := newWord + word[i..j];
      MergeDone(newWord, word, p);
      if j == n {
        return;
      }
      i := j;
      AfterSymbol(newWord, word, p, i);
      if i < n - 1 && word[i] == first && word[i + 1] == second {
        newWord := newWord + [first + second];
        i := i + 2;
      } else {
        newWord := newWord + [word[i]];
        i := i + 1;
      }
    }
    MergeDone(newWord, word, p);
  }

  lemma PrependTwice(a: seq<nat>, b: seq<nat>, c: Option<seq<nat>>)
    ensures Prepend(a, Prepend(b, c)) == Prepend(a + b, c)
  {
    if c.Some? { assert a + (b + c.value) == a + b + c.value; }
  }

  lemma PrependEmpty(b: Option<seq<nat>>)
    ensures Prepend([], b) == b
  {
    if b.Some? { assert [] + b.value == b.value; }
  }

  lemma PrependNothing(a: seq<nat>)
    ensures Prepend(a, Some([])) == Some(a)
  {
    assert a + [] == a;
  }

  function Append(a: Str, b: Option<Str>): Option<Str> {
    if b == None then None else Some(a + b.value)
  }

  lemma AppendTwice(a: Str, b: Str, c: Option<Str>)
    ensures Append(a, Append(b, c)) == Append(a + b, c)
  {
    if c.Some? { assert a + (b + c.value) == a + b + c.value; }
  }

  lemma AppendEmpty(b: Option<Str>)
    ensures Append([], b) == b
  {
    if b.Some? { assert [] + b.value == b.value; }
  }

  lemma AppendNothing(a: Str)
    ensures Append(a, Some([])) == Some(a)
  {
    assert a + [] == a;
  }

  class BpeTokenizer {
    const tokens: seq<Str>
    const tokenToId: map<Str, nat>
    const mergeRanks: Ranks
    const byteEncoder: map<nat, nat>
    const byteDecoder: map<nat, nat>
    const specialTokens: seq<Str>
    const specialToId: map<Str, nat>
    const specialIds: set<nat>
    var cache: map<Str, Word>

    function View(): Vocabulary {
      Vocabulary(tokens, tokenToId, mergeRanks, specialTokens, specialToId, specialIds)
    }

    ghost predicate TablesOk() {
      && VocabularyOk(View())
      && (forall b: nat :: b < BYTES ==> b in byteEncoder && byteEncoder[b] == ByteChar(b))
      && (forall b: nat :: b < BYTES ==> ByteChar(b) in byteDecoder && byteDecoder[ByteChar(b)] == b)
      && (forall c :: c in byteDecoder ==> exists b: nat :: b < BYTES && ByteChar(b) == c)
    }

    // The memo holds what a fresh computation would give.
    ghost predicate Valid()
      reads this
    {
      TablesOk() && forall t :: t in cache ==> cache[t] == BytePairs.Encode(mergeRanks, Chars(t))
    }

    // A missing type list means no specials.
    constructor (tokens: seq<Str>, merges: seq<Str>, tokenType: Option<seq<int>>)
      requires |merges| <= UNRANKED && forall k :: 0 <= k < |merges| ==> SPACE in merges[k]
      requires tokenType.Some? ==> |tokenType.value| <= |tokens|
      ensures Valid() && cache == map[] && this.tokens == tokens && RanksOf(merges, |merges|, mergeRanks)
      ensures forall k :: k in specialIds <==> tokenType.Some? && 0 <= k < |tokenType.value| && tokenType.value[k] == 3
      ensures specialTokens == if tokenType.Some? then Chosen(tokens, tokenType.value) else []
      ensures forall t :: t in tokenToId ==> LastOne(tokens, tokenToId, t, |tokens|)
    {
      var ids := IndexTokens(tokens);
      var ranks := RankMerges(merges);
      TableOk(merges, ranks.value);
      var encoder := BytesToUnicode();
      var decoder := Invert(encoder);
      var types := if tokenType.Some? then tokenType.value else [];
      var specials, special, members := Specials(tokens, types);
      this.tokens := tokens;
      tokenToId := ids;
      mergeRanks := ranks.value;
      byteEncoder := encoder;
      byteDecoder := decoder;
      specialTokens := specials;
      specialToId := special;
      specialIds := members;
      cache := map[];
    }

    // min over the set of pairs; ties among unranked pairs may fall any way.
    method MinPair(pairs: set<Pair>) returns (p: Pair)
      requires pairs != {}
      ensures Least(mergeRanks, pairs, p)
      ensures forall q: Pair :: q in pairs && q in mergeRanks && mergeRanks[q] < 0x4000_0000 ==> p in mergeRanks && mergeRanks[p] <= mergeRanks[q]
    {
      LeastExists(mergeRanks, pairs);
      p :| p in pairs && forall q :: q in pairs ==> Key(mergeRanks, p) <= Key(mergeRanks, q);
    }

    method Bpe(token: Str) returns (r: Word)
      requires Valid() && token != []
      modifies this`cache
      ensures Valid() && r == BytePairs.Encode(mergeRanks, Chars(token))
    {
      if token in cache {
        return cache[token];
      }
      var word := Chars(token);
      var pairs := GetPairs(word);
      assert |word| > 1 ==> PairAt(word, 0) in Pairs(word);
      if pairs == {} {
        assert token == [token[0]];
        return [token];
      }
      ghost var goal := BytePairs.Encode(mergeRanks, word);
      while true
        invariant Valid() && word != [] && pairs == Pairs(word) && pairs != {}
        invariant BytePairs.Encode(mergeRanks, word) == goal
        decreases |word|
      {
        var bigram := MinPair(pairs);
        BestIsUnique(mergeRanks, word, bigram, bigram);
        if bigram !in mergeRanks {
          break;
        }
        EncodeStep(mergeRanks, word, bigram);
        MergeShortens(word, bigram);
        word := MergeRound(word, bigram.0, bigram.1);
        if |word| == 1 {
          break;
        }
        pairs := GetPairs(word);
        assert PairAt(word, 0) in pairs;
      }
      cache := cache[token := word];
      return word;
    }

    method ByteEncode(part: Str) returns (raw: Str)
      requires TablesOk() && IsText(part)
      ensures raw == Raw(ToUtf8(part))
    {
      var bytes := ToUtf8(part);
      EncodesBytes(part);
      raw := [];
      for k := 0 to |bytes|
        invariant raw == Raw(bytes[..k])
      {
        raw := raw + [byteEncoder[bytes[k]]];
      }
      assert bytes[..|bytes|] == bytes;
    }

    // The ids of the symbols of one piece; none stands for the source's KeyError.
    method SymbolIds(word: Word) returns (ids: Option<seq<nat>>)
      ensures ids == Lookup(tokenToId, word)
    {
      var found: seq<nat> := [];
      PrependEmpty(Lookup(tokenToId, word));
      assert word[0..] == word;
      for k := 0 to |word|
        invariant Lookup(tokenToId, word) == Prepend(found, Lookup(tokenToId, word[k..]))
      {
        assert word[k..][1..] == word[k + 1..];
        if word[k] !in tokenToId {
          return None;
        }
        PrependTwice(found, [tokenToId[word[k]]], Lookup(tokenToId, word[k + 1..]));
        found := found + [tokenToId[word[k]]];
      }
      assert word[|word|..] == [];
      PrependNothing(found);
      return Some(found);
    }

    method EncodePart(part: Str) returns (ids: Option<seq<nat>>)
      requires Valid()
      modifies this`cache
      ensures Valid() && ids == PartIds(View(), part)
    {
      if part in specialToId {
        return Some([specialToId[part]]);
      }
      if !IsText(part) {
        return None;
      }
      var raw := ByteEncode(part);
      RawFound(part);
      ids := EncodePieces(FindAll(raw, 0));
    }

    method EncodePieces(pieces: Word) returns (ids: Option<seq<nat>>)
      requires Valid() && forall k :: 0 <= k < |pieces| ==> pieces[k] != []
      modifies this`cache
      ensures Valid() && ids == PieceIds(View(), pieces)
    {
      var found: seq<nat> := [];
      PrependEmpty(PieceIds(View(), pieces));
      assert pieces[0..] == pieces;
      for k := 0 to |pieces|
        invariant Valid() && PieceIds(View(), pieces) == Prepend(found, PieceIds(View(), pieces[k..]))
      {
        assert pieces[k..][1..] == pieces[k + 1..];
        var symbols := Bpe(pieces[k]);
        var more := SymbolIds(symbols);
        if more == None {
          return None;
        }
        PrependTwice(found, more.value, PieceIds(View(), pieces[k + 1..]));
        found := found + more.value;
      }
      assert pieces[|pieces|..] == [];
      PrependNothing(found);
      return Some(found);
    }

    method Encode(text: Str) returns (ids: Option<seq<nat>>)
      requires Valid() && NonEmpty(specialTokens)
      modifies this`cache
      ensures Valid() && ids == TextIds(View(), text)
      ensures Complete(View()) && IsText(text) ==> ids.Some?
    {
      var parts := Split(specialTokens, text, 0, 0);
      if Complete(View()) && IsText(text) { RoundTripExactly(View(), text); }
      ids := EncodeParts(parts);
    }

    method EncodeParts(parts: Word) returns (ids: Option<seq<nat>>)
      requires Valid()
      modifies this`cache
      ensures Valid() && ids == AllIds(View(), parts)
    {
      var found: seq<nat> := [];
      PrependEmpty(AllIds(View(), parts));
      assert parts[0..] == parts;
      for k := 0 to |parts|
        invariant Valid() && AllIds(View(), parts) == Prepend(found, AllIds(View(), parts[k..]))
      {
        assert parts[k..][1..] == parts[k + 1..];
        var more := EncodePart(parts[k]);
        if more == None {
          return None;
        }
        PrependTwice(found, more.value, AllIds(View(), parts[k + 1..]));
        found := found + more.value;
      }
      assert parts[|parts|..] == [];
      PrependNothing(found);
      return Some(found);
    }

    method SpellIds(ids: seq<nat>, skip: bool) returns (s: Option<Str>)
      ensures s == Spell(View(), ids, skip)
    {
      var text: Str := [];
      AppendEmpty(Spell(View(), ids, skip));
      assert ids[0..] == ids;
      for k := 0 to |ids|
        invariant Spell(View(), ids, skip) == Append(text, Spell(View(), ids[k..], skip))
      {
        assert ids[k..][1..] == ids[k + 1..];
        if !(ids[k] in specialIds && skip) {
          if ids[k] >= |tokens| {
            return None;
          }
          AppendTwice(text, tokens[ids[k]], Spell(View(), ids[k + 1..], skip));
          text := text + tokens[ids[k]];
        }
      }
      assert ids[|ids|..] == [];
      AppendNothing(text);
      return Some(text);
    }

    method Decode(ids: seq<nat>, skip: bool) returns (r: Option<Str>)
      requires Valid()
      ensures r == Encoding.Decode(View(), ids, skip)
    {
      var s := SpellIds(ids, skip);
      if s == None {
        return None;
      }
      var text := ByteDecode(s.value);
      return Some(text);
    }

    method ByteDecode(text: Str) returns (r: Str)
      requires TablesOk()
      ensures r == Unspell(text)
    {
      var bytes: Str := [];
      for k := 0 to |text|
        invariant |bytes| == k && forall i :: 0 <= i < k ==> StandsForByte(text[i]) && bytes[i] == ByteOf(text[i])
      {
        if text[k] !in byteDecoder {
          ForeignCharacter(text[k]);
          return text;
        }
        DecodesChar(text[k]);
        bytes := bytes + [byteDecoder[text[k]]];
      }
      assert bytes == BytesOf(text);
      return FromUtf8(bytes);
    }

    lemma DecodesChar(c: nat)
      requires TablesOk() && c in byteDecoder
      ensures StandsForByte(c) && byteDecoder[c] == ByteOf(c)
    {
      var b: nat :| b < BYTES && ByteChar(b) == c;
      ByteOfChar(b);
    }

    lemma ForeignCharacter(c: nat)
      requires TablesOk() && c !in byteDecoder
      ensures !StandsForByte(c)
    {
    }
  }

  // ---- whole runs --------------------------------------------------------------------------------

  // Encoding any texts before does not change what a text is encoded to, and decoding undoes it.
  method EncodeAfter(t: BpeTokenizer, history: seq<Str>, text: Str) returns (ids: seq<nat>, back: Option<Str>)
    requires t.Valid() && NonEmpty(t.specialTokens) && Complete(t.View()) && IsText(text)
    modifies t`cache
    ensures Some(ids) == TextIds(t.View(), text)
    ensures back == Some(text) <==> ComesBack(t.View(), Split(t.specialTokens, text, 0, 0))
  {
    for k := 0 to |history|
      invariant t.Valid()
    {
      var unused := t.Encode(history[k]);
    }
    var r := t.Encode(text);
    ids := r.value;
    RoundTripExactly(t.View(), text);
    back := t.Decode(ids, false);
  }
}
