// Byte-pair merging (python/xecuda/tokenizer.py, _get_pairs and _bpe) as functions on words.
module BytePairs {
  import opened Strings

  type Word = seq<Str>
  type Pair = (Str, Str)
  type Ranks = map<Pair, nat>

  const UNRANKED: nat := 0x4000_0000

  function Join(w: Word): Str {
    if w == [] then [] else w[0] + Join(w[1..])
  }

  function Chars(token: Str): (w: Word)
    ensures |w| == |token|
  {
    seq(|token|, i requires 0 <= i < |token| => [token[i]])
  }

  function PairAt(w: Word, k: nat): Pair
    requires k + 1 < |w|
  {
    (w[k], w[k + 1])
  }

  function Pairs(w: Word): set<Pair> {
    set k | 0 <= k < |w| - 1 :: PairAt(w, k)
  }

  // Every occurrence of the pair, left to right and not overlapping, becomes one symbol.
  function Merge(w: Word, p: Pair): Word {
    if |w| < 2 then w
    else if (w[0], w[1]) == p then [p.0 + p.1] + Merge(w[2..], p)
    else [w[0]] + Merge(w[1..], p)
  }

  function Key(r: Ranks, p: Pair): nat {
    if p in r then r[p] else UNRANKED
  }

  // What building the table from a list of merges gives: ranks below the sentinel, one each.
  ghost predicate RanksOk(r: Ranks) {
    && (forall p :: p in r ==> r[p] < UNRANKED)
    && (forall p, q :: p in r && q in r && r[p] == r[q] ==> p == q)
  }

  // min over the pairs may return any of several unranked ones.
  ghost predicate IsBest(r: Ranks, w: Word, p: Pair) {
    Least(r, Pairs(w), p)
  }

  ghost predicate Mergeable(r: Ranks, w: Word) {
    exists p :: p in Pairs(w) && p in r
  }

  // ---- the order in which a set is searched does not matter -----------------------------------

  ghost predicate Least(r: Ranks, ps: set<Pair>, p: Pair) {
    p in ps && forall q :: q in ps ==> Key(r, p) <= Key(r, q)
  }

  lemma {:induction false} LeastExists(r: Ranks, ps: set<Pair>)
    requires ps != {}
    ensures exists p :: Least(r, ps, p)
    decreases |ps|
  {
    var p :| p in ps;
    if ps == {p} {
      assert Least(r, ps, p);
    } else {
      LeastExists(r, ps - {p});
      var q :| Least(r, ps - {p}, q);
      assert Least(r, ps, if Key(r, q) < Key(r, p) then q else p);
    }
  }

  lemma BestIsUnique(r: Ranks, w: Word, p: Pair, q: Pair)
    requires RanksOk(r) && IsBest(r, w, p) && IsBest(r, w, q)
    ensures p in r <==> Mergeable(r, w)
    ensures p in r ==> p == q
  {
  }

  // ---- one round ---------------------------------------------------------------------------------

  lemma {:induction false} MergeKeepsText(w: Word, p: Pair)
    ensures Join(Merge(w, p)) == Join(w)
  {
    if |w| >= 2 {
      if (w[0], w[1]) == p {
        MergeKeepsText(w[2..], p);
        assert w[1..][1..] == w[2..];
        assert ([p.0 + p.1] + Merge(w[2..], p))[1..] == Merge(w[2..], p);
      } else {
        MergeKeepsText(w[1..], p);
        assert ([w[0]] + Merge(w[1..], p))[1..] == Merge(w[1..], p);
      }
    }
  }

  lemma {:induction false} MergeShortens(w: Word, p: Pair)
    ensures |Merge(w, p)| <= |w|
    ensures p in Pairs(w) ==> |Merge(w, p)| < |w|
    ensures w != [] ==> Merge(w, p) != []
  {
    if |w| >= 2 {
      if (w[0], w[1]) == p {
        MergeShortens(w[2..], p);
      } else {
        MergeShortens(w[1..], p);
        TailPairs(w, p);
      }
    }
  }

  lemma TailPairs(w: Word, p: Pair)
    requires |w| >= 2
    ensures p in Pairs(w) <==> (w[0], w[1]) == p || p in Pairs(w[1..])
  {
    assert PairAt(w, 0) == (w[0], w[1]);
    if p in Pairs(w) && (w[0], w[1]) != p {
      var k :| 0 <= k < |w| - 1 && p == PairAt(w, k);
      assert PairAt(w[1..], k - 1) == p;
    }
    if p in Pairs(w[1..]) {
      var k :| 0 <= k < |w[1..]| - 1 && p == PairAt(w[1..], k);
      assert PairAt(w, k + 1) == p;
    }
  }

  // The first occurrence becomes one symbol and the search goes on behind it.
  lemma {:induction false} MergeLeftmost(w: Word, p: Pair, i: nat)
    requires i + 1 < |w| && (w[i], w[i + 1]) == p && forall k :: 0 <= k < i ==> (w[k], w[k + 1]) != p
    ensures Merge(w, p) == w[..i] + [p.0 + p.1] + Merge(w[i + 2..], p)
  {
    if i > 0 {
      assert (w[0], w[1]) != p;
      forall k | 0 <= k < i - 1 ensures (w[1..][k], w[1..][k + 1]) != p {
        assert (w[k + 1], w[k + 2]) != p;
      }
      MergeLeftmost(w[1..], p, i - 1);
      var a, b := w[..i], Merge(w[i + 2..], p);
      assert w[1..][i + 1..] == w[i + 2..];
      assert [w[0]] + w[1..][..i - 1] == a;
      assert [w[0]] + (w[1..][..i - 1] + [p.0 + p.1] + b) == a + [p.0 + p.1] + b;
    }
  }

  lemma {:induction false} MergeNothing(w: Word, p: Pair)
    requires forall k :: 0 <= k < |w| - 1 ==> (w[k], w[k + 1]) != p
    ensures Merge(w, p) == w
  {
    if |w| >= 2 {
      assert (w[0], w[1]) != p;
      forall k | 0 <= k < |w[1..]| - 1 ensures (w[1..][k], w[1..][k + 1]) != p {
        assert (w[k + 1], w[k + 2]) != p;
      }
      MergeNothing(w[1..], p);
    }
  }

  ghost predicate Solid(w: Word) {
    forall k :: 0 <= k < |w| ==> w[k] != []
  }

  // The symbol a merged word starts with is the one it started with, or the new symbol.
  lemma MergeHead(w: Word, p: Pair)
    requires w != []
    ensures Merge(w, p) != []
    ensures Merge(w, p)[0] == if |w| >= 2 && (w[0], w[1]) == p then p.0 + p.1 else w[0]
  {
  }

  lemma LongerSymbol(p: Pair)
    requires p.0 != [] && p.1 != []
    ensures p.0 + p.1 != p.0 && p.0 + p.1 != p.1
  {
    assert |p.0 + p.1| > |p.0| && |p.0 + p.1| > |p.1|;
  }

  lemma ConsPairs(x: Str, w: Word, p: Pair)
    ensures p in Pairs([x] + w) <==> (w != [] && (x, w[0]) == p) || p in Pairs(w)
  {
    if w != [] {
      assert ([x] + w)[1..] == w;
      TailPairs([x] + w, p);
    }
  }

  // A round leaves no occurrence of its pair behind.
  lemma {:induction false} MergeRemoves(w: Word, p: Pair)
    requires Solid(w) && p.0 != [] && p.1 != []
    ensures p !in Pairs(Merge(w, p))
  {
    if |w| >= 2 {
      LongerSymbol(p);
      if (w[0], w[1]) == p {
        MergeRemoves(w[2..], p);
        ConsPairs(p.0 + p.1, Merge(w[2..], p), p);
      } else {
        MergeRemoves(w[1..], p);
        MergeHead(w[1..], p);
        ConsPairs(w[0], Merge(w[1..], p), p);
      }
    }
  }

  // ---- all rounds -------------------------------------------------------------------------------------

  ghost function Best(r: Ranks, w: Word): (p: Pair)
    requires Mergeable(r, w)
    ensures IsBest(r, w, p)
  {
    assert Pairs(w) != {};
    LeastExists(r, Pairs(w));
    var p :| Least(r, Pairs(w), p);
    p
  }

  ghost function Encode(r: Ranks, w: Word): (e: Word)
    decreases |w|
  {
    if Mergeable(r, w) then
      MergeShortens(w, Best(r, w));
      Encode(r, Merge(w, Best(r, w)))
    else w
  }

  lemma {:induction false} EncodeKeepsText(r: Ranks, w: Word)
    ensures Join(Encode(r, w)) == Join(w)
    decreases |w|
  {
    if Mergeable(r, w) {
      MergeShortens(w, Best(r, w));
      MergeKeepsText(w, Best(r, w));
      EncodeKeepsText(r, Merge(w, Best(r, w)));
    }
  }

  // Nothing is left to merge.
  lemma {:induction false} EncodeIsFinal(r: Ranks, w: Word)
    ensures !Mergeable(r, Encode(r, w))
    decreases |w|
  {
    if Mergeable(r, w) {
      MergeShortens(w, Best(r, w));
      EncodeIsFinal(r, Merge(w, Best(r, w)));
    }
  }

  // Whatever lowest pair the search settles on, merging it leads to the same end.
  lemma EncodeStep(r: Ranks, w: Word, p: Pair)
    requires RanksOk(r) && IsBest(r, w, p) && p in r
    ensures Encode(r, w) == Encode(r, Merge(w, p)) && |Merge(w, p)| < |w|
  {
    assert Mergeable(r, w);
    BestIsUnique(r, w, p, Best(r, w));
    MergeShortens(w, p);
  }

  // The adjacent symbols at position k, when they have a rank.
  predicate RankedAt(r: Ranks, w: Word, k: nat) {
    k + 1 < |w| && (w[k], w[k + 1]) in r
  }

  // No adjacent symbols have a lower rank than those at position i.
  ghost predicate LowestAt(r: Ranks, w: Word, i: nat) {
    && RankedAt(r, w, i)
    && forall k: nat :: RankedAt(r, w, k) ==> r[(w[i], w[i + 1])] <= r[(w[k], w[k + 1])]
  }

  // The rule that is applied first is the one listed first.
  lemma LowestFirst(r: Ranks, w: Word, i: nat)
    requires RanksOk(r) && LowestAt(r, w, i)
    ensures Encode(r, w) == Encode(r, Merge(w, (w[i], w[i + 1])))
  {
    var p := (w[i], w[i + 1]);
    assert p == PairAt(w, i);
    forall q | q in Pairs(w) ensures Key(r, p) <= Key(r, q) {
      var k: nat :| k + 1 < |w| && q == PairAt(w, k);
      assert q in r ==> RankedAt(r, w, k);
    }
    EncodeStep(r, w, p);
  }

  lemma NoneRanked(r: Ranks, w: Word)
    requires forall k: nat :: !RankedAt(r, w, k)
    ensures Encode(r, w) == w
  {
    forall p | p in Pairs(w) ensures p !in r {
      var k: nat :| k + 1 < |w| && p == PairAt(w, k);
      assert !RankedAt(r, w, k);
    }
  }

  lemma NoneLeft(r: Ranks, w: Word, k: nat)
    ensures !RankedAt(r, Encode(r, w), k)
  {
    var e := Encode(r, w);
    EncodeIsFinal(r, w);
    assert k + 1 < |e| ==> PairAt(e, k) in Pairs(e);
  }

  // ---- a vocabulary that knows every symbol ---------------------------------------------------------------

  ghost predicate Known(vocab: set<Str>, w: Word) {
    forall k :: 0 <= k < |w| ==> w[k] in vocab
  }

  ghost predicate Closed(r: Ranks, vocab: set<Str>) {
    forall p: Pair :: p in r ==> p.0 + p.1 in vocab
  }

  lemma {:induction false} MergeKnown(vocab: set<Str>, w: Word, p: Pair)
    requires Known(vocab, w) && p.0 + p.1 in vocab
    ensures Known(vocab, Merge(w, p))
  {
    if |w| >= 2 {
      if (w[0], w[1]) == p { MergeKnown(vocab, w[2..], p); } else { MergeKnown(vocab, w[1..], p); }
    }
  }

  lemma {:induction false} EncodeKnown(r: Ranks, vocab: set<Str>, w: Word)
    requires RanksOk(r) && Closed(r, vocab) && Known(vocab, w)
    ensures Known(vocab, Encode(r, w))
    decreases |w|
  {
    if Mergeable(r, w) {
      var p := Best(r, w);
      BestIsUnique(r, w, p, p);
      MergeShortens(w, p);
      MergeKnown(vocab, w, p);
      EncodeKnown(r, vocab, Merge(w, p));
    }
  }

  lemma {:induction false} JoinChars(token: Str)
    ensures Join(Chars(token)) == token
  {
    if token != [] {
      JoinChars(token[1..]);
      assert Chars(token)[1..] == Chars(token[1..]);
      assert token == [token[0]] + token[1..];
    }
  }

  // ---- the merge table ---------------------------------------------------------------------------------------

  const SPACE: nat := 32

  // The parts of a merge around its first space.
  predicate Halves(m: Str, p: Pair) {
    m == p.0 + [SPACE] + p.1 && SPACE !in p.0
  }

  // A pair has the position of the last merge that spells it, and no other pair has a rank.
  ghost predicate RanksOf(merges: seq<Str>, n: nat, r: Ranks)
    requires n <= |merges|
  {
    && (forall p :: p in r ==> r[p] < n && Halves(merges[r[p]], p))
    && (forall p, k :: p in r && r[p] < k < n ==> !Halves(merges[k], p))
    && (forall k :: 0 <= k < n ==> Ranked(merges[k], r))
  }

  ghost predicate Ranked(m: Str, r: Ranks) {
    exists p :: p in r && Halves(m, p)
  }

  lemma FirstSpace(m: Str, p: Pair, q: Pair)
    requires Halves(m, p) && Halves(m, q)
    ensures |q.0| <= |p.0|
  {
    assert m[|p.0|] == SPACE;
    assert forall k :: 0 <= k < |q.0| ==> q.0[k] == m[k];
  }

  lemma HalvesUnique(m: Str, p: Pair, q: Pair)
    requires Halves(m, p) && Halves(m, q)
    ensures p == q
  {
    FirstSpace(m, p, q);
    FirstSpace(m, q, p);
    assert p.0 == m[..|p.0|] && p.1 == m[|p.0| + 1..];
    assert q.0 == m[..|q.0|] && q.1 == m[|q.0| + 1..];
  }

  // A later merge of the same pair overrides its rank.
  lemma RanksNext(merges: seq<Str>, n: nat, r: Ranks, p: Pair)
    requires n < |merges| && RanksOf(merges, n, r) && Halves(merges[n], p)
    ensures RanksOf(merges, n + 1, r[p := n])
  {
    var now := r[p := n];
    forall q, k | q in now && now[q] < k < n + 1 ensures !Halves(merges[k], q) {
      NotSpelled(merges, n, r, p, q, k);
    }
    hide Halves;
    forall k | 0 <= k < n + 1 ensures Ranked(merges[k], now) {
      if k < n { StaysRanked(merges[k], r, p, n); }
    }
  }

  lemma NotSpelled(merges: seq<Str>, n: nat, r: Ranks, p: Pair, q: Pair, k: nat)
    requires n < |merges| && RanksOf(merges, n, r) && Halves(merges[n], p) && q in r && q != p && r[q] < k <= n
    ensures !Halves(merges[k], q)
  {
    if k == n && Halves(merges[k], q) { HalvesUnique(merges[k], p, q); }
  }

  lemma StaysRanked(m: Str, r: Ranks, p: Pair, n: nat)
    requires Ranked(m, r)
    ensures Ranked(m, r[p := n])
  {
    var q :| q in r && Halves(m, q);
    assert q in r[p := n];
  }

  lemma TableOk(merges: seq<Str>, r: Ranks)
    requires |merges| <= UNRANKED && RanksOf(merges, |merges|, r)
    ensures RanksOk(r)
  {
    forall p, q | p in r && q in r && r[p] == r[q] ensures p == q {
      HalvesUnique(merges[r[p]], p, q);
    }
  }

  // The merges and their order fix the table.
  lemma RanksUnique(merges: seq<Str>, r: Ranks, t: Ranks)
    requires RanksOf(merges, |merges|, r) && RanksOf(merges, |merges|, t)
    ensures r == t
  {
    forall p | p in r ensures p in t && t[p] == r[p] { SameRank(merges, r, t, p); }
    forall p | p in t ensures p in r { SameRank(merges, t, r, p); }
  }

  lemma SameRank(merges: seq<Str>, r: Ranks, t: Ranks, p: Pair)
    requires RanksOf(merges, |merges|, r) && RanksOf(merges, |merges|, t) && p in r
    ensures p in t && t[p] == r[p]
  {
    var k := r[p];
    assert Ranked(merges[k], t);
    var q :| q in t && Halves(merges[k], q);
    HalvesUnique(merges[k], p, q);
  }
}
