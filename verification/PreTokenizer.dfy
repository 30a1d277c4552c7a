// The pre-tokenizer pattern (python/xecuda/tokenizer.py, QWEN_RE) with the priorities of a
// backtracking matcher, and the simple scanner it amounts to on byte-encoded text.
module PreTokenizer {
  import opened Strings
  import opened ByteAlphabet
  import opened BytePairs

  // ---- character classes ---------------------------------------------------------------------

  // Letters, numbers and white space among the characters up to U+0143; the classes of
  // characters outside the byte alphabet are not used below.
  predicate IsLetter(c: nat) {
    || 65 <= c <= 90 || 97 <= c <= 122 || c == 170 || c == 181 || c == 186
    || 192 <= c <= 214 || 216 <= c <= 246 || 248 <= c
  }

  predicate IsNumber(c: nat) {
    48 <= c <= 57 || c == 178 || c == 179 || c == 185 || 188 <= c <= 190
  }

  predicate IsSpace(c: nat) {
    9 <= c <= 13 || c == 32 || c == 133 || c == 160
  }

  predicate IsBreak(c: nat) {
    c == 10 || c == 13
  }

  predicate IsSymbol(c: nat) {
    !IsSpace(c) && !IsLetter(c) && !IsNumber(c)
  }

  datatype Class = Letter | Number | Space | NotSpace | Break | Symbol | Lead | One(c: nat) | Folded(c: nat)

  // Folded(c) is a lower-case ASCII letter in either case.
  predicate In(k: Class, c: nat) {
    match k
    case Letter => IsLetter(c)
    case Number => IsNumber(c)
    case Space => IsSpace(c)
    case NotSpace => !IsSpace(c)
    case Break => IsBreak(c)
    case Symbol => IsSymbol(c)
    case Lead => !IsBreak(c) && !IsLetter(c) && !IsNumber(c)
    case One(d) => c == d
    case Folded(d) => c == d || c + 32 == d
  }

  predicate At(s: Str, i: nat, k: Class) {
    i < |s| && In(k, s[i])
  }

  // ---- patterns ----------------------------------------------------------------------------------

  datatype Pattern =
    | Char(k: Class)
    | Cat(a: Pattern, b: Pattern)
    | Or(a: Pattern, b: Pattern)
    | Maybe(a: Pattern)
    | Many(k: Class)
    | Any(k: Class)
    | NotAhead(k: Class)

  // The end of the longest run of the class from i.
  function Run(k: Class, s: Str, i: nat): (j: nat)
    requires i <= |s|
    ensures i <= j <= |s|
    decreases |s| - i
  {
    if At(s, i, k) then Run(k, s, i + 1) else i
  }

  // j, j - 1, ..., i + 1.
  function Down(i: nat, j: nat): (e: seq<nat>)
    requires i <= j
    ensures forall x :: 0 <= x < |e| ==> i <= e[x] <= j
    ensures e != [] <==> i < j
    ensures e != [] ==> e[0] == j
    decreases j - i
  {
    if i == j then [] else [j] + Down(i, j - 1)
  }

  // Where a match of the pattern from i can end, in the order a backtracking matcher tries.
  function Ends(p: Pattern, s: Str, i: nat): (e: seq<nat>)
    requires i <= |s|
    ensures forall x :: 0 <= x < |e| ==> i <= e[x] <= |s|
    decreases p, 0
  {
    match p
    case Char(k) => if At(s, i, k) then [i + 1] else []
    case Cat(a, b) => Each(b, s, Ends(a, s, i), i)
    case Or(a, b) => Ends(a, s, i) + Ends(b, s, i)
    case Maybe(a) => Ends(a, s, i) + [i]
    case Many(k) => Down(i, Run(k, s, i))
    case Any(k) => Down(i, Run(k, s, i)) + [i]
    case NotAhead(k) => if At(s, i, k) then [] else [i]
  }

  function Each(p: Pattern, s: Str, from: seq<nat>, i: nat): (e: seq<nat>)
    requires i <= |s| && forall x :: 0 <= x < |from| ==> i <= from[x] <= |s|
    ensures forall x :: 0 <= x < |e| ==> i <= e[x] <= |s|
    decreases p, 1, |from|
  {
    if from == [] then [] else Ends(p, s, from[0]) + Each(p, s, from[1..], i)
  }

  const QUOTE: Pattern := Char(One(39))
  const MLD: Pattern :=
    Or(Cat(QUOTE, Char(Folded(109))), Or(Cat(QUOTE, Cat(Char(Folded(108)), Char(Folded(108)))), Cat(QUOTE, Char(Folded(100)))))
  const RVMLD: Pattern :=
    Or(Cat(QUOTE, Cat(Char(Folded(114)), Char(Folded(101)))), Or(Cat(QUOTE, Cat(Char(Folded(118)), Char(Folded(101)))), MLD))
  // 's 't 're 've 'm 'll 'd in either case.
  const CONTRACTIONS: Pattern :=
    Or(Cat(QUOTE, Char(Folded(115))), Or(Cat(QUOTE, Char(Folded(116))), RVMLD))
  const WORDS: Pattern := Cat(Maybe(Char(Lead)), Many(Letter))
  const NUMBERS: Pattern := Char(Number)
  const SYMBOLS: Pattern := Cat(Maybe(Char(One(32))), Cat(Many(Symbol), Any(Break)))
  const BLANKS: Pattern :=
    Or(Cat(Any(Space), Many(Break)), Or(Cat(Many(Space), NotAhead(NotSpace)), Many(Space)))
  const QWEN: Pattern := Or(CONTRACTIONS, Or(WORDS, Or(NUMBERS, Or(SYMBOLS, BLANKS))))

  // What the matcher reports.
  function Match(p: Pattern, s: Str, i: nat): (m: int)
    requires i <= |s|
    ensures m == -1 || i <= m <= |s|
  {
    if Ends(p, s, i) == [] then -1 else Ends(p, s, i)[0]
  }

  // findall of a pattern that never matches the empty string.
  function FindAll(s: Str, i: nat): seq<Str>
    requires i <= |s|
    decreases |s| - i
  {
    if i == |s| then [] else
      var j := Match(QWEN, s, i);
      if j <= i then FindAll(s, i + 1) else [s[i..j]] + FindAll(s, j)
  }

  // ---- the scanner ----------------------------------------------------------------------------------

  // The end of a contraction that starts with the quote at i, or i.
  function Contraction(s: Str, i: nat): (j: nat)
    requires i < |s|
    ensures i <= j <= |s|
  {
    if s[i] != 39 then i
    else if At(s, i + 1, Folded(115)) || At(s, i + 1, Folded(116)) || At(s, i + 1, Folded(109)) || At(s, i + 1, Folded(100)) then i + 2
    else if (At(s, i + 1, Folded(114)) || At(s, i + 1, Folded(118))) && At(s, i + 2, Folded(101)) then i + 3
    else if At(s, i + 1, Folded(108)) && At(s, i + 2, Folded(108)) then i + 3
    else i
  }

  function NextEnd(s: Str, i: nat): (j: nat)
    requires i < |s|
    ensures i < j <= |s|
  {
    if Contraction(s, i) > i then Contraction(s, i)
    else if IsNumber(s[i]) then i + 1
    else if IsLetter(s[i]) then Run(Letter, s, i)
    else if At(s, i + 1, Letter) then Run(Letter, s, i + 1)
    else if IsSymbol(s[i]) then Run(Symbol, s, i)
    else i + 1
  }

  function Pieces(s: Str, i: nat): seq<Str>
    requires i <= |s|
    decreases |s| - i
  {
    if i == |s| then [] else [s[i..NextEnd(s, i)]] + Pieces(s, NextEnd(s, i))
  }

  // ---- the pattern is the scanner ------------------------------------------------------------------------

  ghost predicate ByteEncoded(s: Str) {
    forall i :: 0 <= i < |s| ==> InAlphabet(s[i])
  }

  lemma MatchOr(a: Pattern, b: Pattern, s: Str, i: nat)
    requires i <= |s|
    ensures Match(Or(a, b), s, i) == if Match(a, s, i) != -1 then Match(a, s, i) else Match(b, s, i)
  {
  }

  lemma EndsAfterChar(k: Class, b: Pattern, s: Str, i: nat)
    requires i <= |s|
    ensures Ends(Cat(Char(k), b), s, i) == if At(s, i, k) then Ends(b, s, i + 1) else []
  {
    assert Ends(Cat(Char(k), b), s, i) == Each(b, s, Ends(Char(k), s, i), i);
    if At(s, i, k) {
      assert [i + 1][1..] == [];
      assert Each(b, s, [i + 1], i) == Ends(b, s, i + 1) + Each(b, s, [], i);
    }
  }

  lemma MatchTwo(c: Class, d: Class, s: Str, i: nat)
    requires i <= |s|
    ensures Match(Cat(Char(c), Char(d)), s, i) == if At(s, i, c) && At(s, i + 1, d) then i + 2 else -1
  {
    EndsAfterChar(c, Char(d), s, i);
  }

  lemma MatchThree(c: Class, d: Class, e: Class, s: Str, i: nat)
    requires i <= |s|
    ensures Match(Cat(Char(c), Cat(Char(d), Char(e))), s, i)
         == if At(s, i, c) && At(s, i + 1, d) && At(s, i + 2, e) then i + 3 else -1
  {
    EndsAfterChar(c, Cat(Char(d), Char(e)), s, i);
    if At(s, i, c) { EndsAfterChar(d, Char(e), s, i + 1); }
  }

  lemma MatchMld(s: Str, i: nat)
    requires i < |s|
    ensures Match(MLD, s, i) == if s[i] != 39 then -1 else if At(s, i + 1, Folded(109)) then i + 2
                                else if At(s, i + 1, Folded(108)) && At(s, i + 2, Folded(108)) then i + 3
                                else if At(s, i + 1, Folded(100)) then i + 2 else -1
  {
    var q := One(39);
    MatchTwo(q, Folded(100), s, i);
    MatchThree(q, Folded(108), Folded(108), s, i);
    MatchTwo(q, Folded(109), s, i);
    MatchOr(MLD.b.a, MLD.b.b, s, i);
    MatchOr(MLD.a, MLD.b, s, i);
  }

  lemma MatchRvmld(s: Str, i: nat, rest: int)
    requires i < |s| && rest == Match(MLD, s, i)
    ensures Match(RVMLD, s, i) == if s[i] == 39 && (At(s, i + 1, Folded(114)) || At(s, i + 1, Folded(118))) && At(s, i + 2, Folded(101)) then i + 3 else rest
  {
    var q := One(39);
    MatchThree(q, Folded(118), Folded(101), s, i);
    MatchThree(q, Folded(114), Folded(101), s, i);
    MatchOr(RVMLD.b.a, MLD, s, i);
    MatchOr(RVMLD.a, RVMLD.b, s, i);
  }

  lemma MatchAll(s: Str, i: nat, rest: int)
    requires i < |s| && rest == Match(RVMLD, s, i)
    ensures Match(CONTRACTIONS, s, i) == if s[i] == 39 && (At(s, i + 1, Folded(115)) || At(s, i + 1, Folded(116))) then i + 2 else rest
  {
    var q := One(39);
    MatchTwo(q, Folded(116), s, i);
    MatchTwo(q, Folded(115), s, i);
    MatchOr(CONTRACTIONS.b.a, RVMLD, s, i);
    MatchOr(CONTRACTIONS.a, CONTRACTIONS.b, s, i);
  }

  lemma MatchContractions(s: Str, i: nat)
    requires i < |s|
    ensures Match(CONTRACTIONS, s, i) == if Contraction(s, i) > i then Contraction(s, i) else -1
  {
    MatchMld(s, i);
    MatchRvmld(s, i, Match(MLD, s, i));
    MatchAll(s, i, Match(RVMLD, s, i));
  }

  // ---- words, numbers and symbols ---------------------------------------------------------------------------

  lemma MatchMany(k: Class, s: Str, i: nat)
    requires i <= |s|
    ensures Match(Many(k), s, i) == if At(s, i, k) then Run(k, s, i) else -1
  {
  }

  lemma EachFirst(p: Pattern, s: Str, from: seq<nat>, i: nat)
    requires i <= |s| && (forall x :: 0 <= x < |from| ==> i <= from[x] <= |s|)
    ensures from != [] && Ends(p, s, from[0]) != [] ==> Each(p, s, from, i) != [] && Each(p, s, from, i)[0] == Ends(p, s, from[0])[0]
    ensures from != [] && Ends(p, s, from[0]) == [] ==> Each(p, s, from, i) == Each(p, s, from[1..], i)
  {
  }

  // A leading class is taken when the rest matches after it, else skipped.
  lemma EndsMaybe(k: Class, s: Str, i: nat)
    requires i <= |s|
    ensures Ends(Maybe(Char(k)), s, i) == if At(s, i, k) then [i + 1, i] else [i]
  {
    assert Ends(Maybe(Char(k)), s, i) == Ends(Char(k), s, i) + [i];
  }

  lemma EachOne(b: Pattern, s: Str, i: nat)
    requires i <= |s|
    ensures Each(b, s, [i], i) == Ends(b, s, i)
  {
    assert [i][1..] == [];
    assert Each(b, s, [i], i) == Ends(b, s, i) + Each(b, s, [], i);
  }

  lemma EachTwo(b: Pattern, s: Str, i: nat)
    requires i < |s|
    ensures Each(b, s, [i + 1, i], i) == Ends(b, s, i + 1) + Ends(b, s, i)
  {
    EachOne(b, s, i);
    assert [i + 1, i][1..] == [i];
    assert Each(b, s, [i + 1, i], i) == Ends(b, s, i + 1) + Each(b, s, [i], i);
  }

  lemma MatchMaybe(k: Class, b: Pattern, s: Str, i: nat)
    requires i <= |s|
    ensures Match(Cat(Maybe(Char(k)), b), s, i)
         == if At(s, i, k) && Match(b, s, i + 1) != -1 then Match(b, s, i + 1) else Match(b, s, i)
  {
    hide Each;
    EndsMaybe(k, s, i);
    if At(s, i, k) { EachTwo(b, s, i); } else { EachOne(b, s, i); }
    assert Ends(Cat(Maybe(Char(k)), b), s, i) == Each(b, s, Ends(Maybe(Char(k)), s, i), i);
  }

  lemma MatchWords(s: Str, i: nat)
    requires i < |s|
    ensures Match(WORDS, s, i) == if At(s, i, Lead) && At(s, i + 1, Letter) then Run(Letter, s, i + 1)
                                  else if At(s, i, Letter) then Run(Letter, s, i) else -1
  {
    MatchMaybe(Lead, Many(Letter), s, i);
    MatchMany(Letter, s, i);
    if At(s, i, Lead) { MatchMany(Letter, s, i + 1); }
  }

  // No break follows a symbol run of byte-encoded text.
  lemma MatchRunThenBreaks(s: Str, i: nat)
    requires i <= |s| && ByteEncoded(s)
    ensures Match(Cat(Many(Symbol), Any(Break)), s, i) == if At(s, i, Symbol) then Run(Symbol, s, i) else -1
  {
    var from := Ends(Many(Symbol), s, i);
    EachFirst(Any(Break), s, from, i);
    if from != [] {
      assert Ends(Any(Break), s, from[0]) == [from[0]];
    }
  }

  lemma MatchSymbols(s: Str, i: nat)
    requires i < |s| && ByteEncoded(s)
    ensures Match(SYMBOLS, s, i) == if At(s, i, Symbol) then Run(Symbol, s, i) else -1
  {
    MatchMaybe(One(32), Cat(Many(Symbol), Any(Break)), s, i);
    MatchRunThenBreaks(s, i);
    assert !At(s, i, One(32));
  }

  lemma MatchRest(s: Str, i: nat)
    requires i < |s| && ByteEncoded(s)
    ensures Match(QWEN.b, s, i) == if Match(WORDS, s, i) != -1 then Match(WORDS, s, i)
                                   else if At(s, i, Number) then i + 1
                                   else if Match(SYMBOLS, s, i) != -1 then Match(SYMBOLS, s, i)
                                   else Match(BLANKS, s, i)
  {
    MatchOr(SYMBOLS, BLANKS, s, i);
    MatchOr(NUMBERS, Or(SYMBOLS, BLANKS), s, i);
    MatchOr(WORDS, Or(NUMBERS, Or(SYMBOLS, BLANKS)), s, i);
  }

  // The branches of the scanner are those of the alternatives.
  lemma ScanByAlternatives(s: Str, i: nat, c: int, w: int, y: int)
    requires i < |s| && ByteEncoded(s)
    requires c == if Contraction(s, i) > i then Contraction(s, i) else -1
    requires w == if At(s, i, Lead) && At(s, i + 1, Letter) then Run(Letter, s, i + 1) else if At(s, i, Letter) then Run(Letter, s, i) else -1
    requires y == if At(s, i, Symbol) then Run(Symbol, s, i) else -1
    ensures NextEnd(s, i) == if c != -1 then c else if w != -1 then w else if At(s, i, Number) then i + 1 else y
    ensures y != -1 || At(s, i, Number) || w != -1
  {
    assert InAlphabet(s[i]);
  }

  lemma MatchIsScan(s: Str, i: nat)
    requires i < |s| && ByteEncoded(s)
    ensures Match(QWEN, s, i) == NextEnd(s, i)
  {
    MatchContractions(s, i);
    MatchWords(s, i);
    MatchSymbols(s, i);
    MatchRest(s, i);
    ScanByAlternatives(s, i, Match(CONTRACTIONS, s, i), Match(WORDS, s, i), Match(SYMBOLS, s, i));
    MatchOr(CONTRACTIONS, QWEN.b, s, i);
  }

  // ---- the pieces partition the text -----------------------------------------------------------------------------

  lemma {:induction false} FindAllIsPieces(s: Str, i: nat)
    requires i <= |s| && ByteEncoded(s)
    ensures FindAll(s, i) == Pieces(s, i)
    decreases |s| - i
  {
    if i < |s| {
      MatchIsScan(s, i);
      FindAllIsPieces(s, NextEnd(s, i));
    }
  }

  lemma {:induction false} PiecesPartition(s: Str, i: nat)
    requires i <= |s|
    ensures Join(Pieces(s, i)) == s[i..]
    ensures forall k :: 0 <= k < |Pieces(s, i)| ==> Pieces(s, i)[k] != []
    decreases |s| - i
  {
    if i < |s| {
      var j := NextEnd(s, i);
      PiecesPartition(s, j);
      assert Pieces(s, i)[1..] == Pieces(s, j);
      assert s[i..] == s[i..j] + s[j..];
    }
  }

  // Every byte-encoded text is cut into non-empty pieces that make it up.
  lemma FindAllPartitions(s: Str)
    requires ByteEncoded(s)
    ensures Join(FindAll(s, 0)) == s
    ensures forall k :: 0 <= k < |FindAll(s, 0)| ==> FindAll(s, 0)[k] != []
  {
    FindAllIsPieces(s, 0);
    PiecesPartition(s, 0);
  }

  // ---- what the pieces are ------------------------------------------------------------------------------------------

  function Lower(c: nat): nat {
    if 65 <= c <= 90 then c + 32 else c
  }

  // The text has the given ASCII letters at i, in either case.
  predicate Spells(s: Str, i: nat, t: string) {
    i + |t| <= |s| && forall k :: 0 <= k < |t| ==> Lower(s[i + k]) == t[k] as int
  }

  predicate ShortForm(s: Str, i: nat) {
    Spells(s, i, "'s") || Spells(s, i, "'t") || Spells(s, i, "'m") || Spells(s, i, "'d")
  }

  predicate LongForm(s: Str, i: nat) {
    Spells(s, i, "'re") || Spells(s, i, "'ve") || Spells(s, i, "'ll")
  }

  lemma SpellsTwo(s: Str, i: nat, t: string)
    requires i < |s| && |t| == 2 && t[0] == '\'' && 'a' <= t[1] <= 'z'
    ensures Spells(s, i, t) <==> s[i] == 39 && At(s, i + 1, Folded(t[1] as nat))
  {
    assert Spells(s, i, t) <==> i + 1 < |s| && Lower(s[i + 0]) == t[0] as int && Lower(s[i + 1]) == t[1] as int;
  }

  lemma SpellsThree(s: Str, i: nat, t: string)
    requires i < |s| && |t| == 3 && t[0] == '\'' && 'a' <= t[1] <= 'z' && 'a' <= t[2] <= 'z'
    ensures Spells(s, i, t) <==> s[i] == 39 && At(s, i + 1, Folded(t[1] as nat)) && At(s, i + 2, Folded(t[2] as nat))
  {
    assert Spells(s, i, t) <==> i + 2 < |s| && Lower(s[i + 0]) == t[0] as int && Lower(s[i + 1]) == t[1] as int && Lower(s[i + 2]) == t[2] as int;
  }

  lemma ContractionForms(s: Str, i: nat)
    requires i < |s|
    ensures Contraction(s, i) == if ShortForm(s, i) then i + 2 else if LongForm(s, i) then i + 3 else i
  {
    hide Spells;
    SpellsTwo(s, i, "'s");
    SpellsTwo(s, i, "'t");
    SpellsTwo(s, i, "'m");
    SpellsTwo(s, i, "'d");
    SpellsThree(s, i, "'re");
    SpellsThree(s, i, "'ve");
    SpellsThree(s, i, "'ll");
  }

  // The longest stretch of the class from i ends at j.
  ghost predicate Stretch(s: Str, i: nat, j: nat, k: Class) {
    i <= j <= |s| && (forall x :: i <= x < j ==> In(k, s[x])) && (j < |s| ==> !In(k, s[j]))
  }

  lemma {:induction false} RunIsStretch(k: Class, s: Str, i: nat)
    requires i <= |s|
    ensures Stretch(s, i, Run(k, s, i), k)
    decreases |s| - i
  {
    if At(s, i, k) { RunIsStretch(k, s, i + 1); }
  }

  // A contraction, one number, letters with at most one other character before them, or symbols.
  ghost predicate PieceEnds(s: Str, i: nat, j: nat)
    requires i < |s|
  {
    if ShortForm(s, i) then j == i + 2
    else if LongForm(s, i) then j == i + 3
    else if IsNumber(s[i]) then j == i + 1
    else if IsLetter(s[i]) then Stretch(s, i, j, Letter)
    else if i + 1 < |s| && IsLetter(s[i + 1]) then Stretch(s, i + 1, j, Letter)
    else Stretch(s, i, j, Symbol)
  }

  // The next piece of byte-encoded text.
  lemma PieceIs(s: Str, i: nat)
    requires i < |s| && ByteEncoded(s)
    ensures i < Match(QWEN, s, i) <= |s| && PieceEnds(s, i, Match(QWEN, s, i))
  {
    hide Match, ShortForm, LongForm;
    MatchIsScan(s, i);
    ContractionForms(s, i);
    assert InAlphabet(s[i]);
    RunIsStretch(Letter, s, i);
    RunIsStretch(Symbol, s, i);
    if i + 1 < |s| { RunIsStretch(Letter, s, i + 1); }
  }
}
