// Pending swaps in a layout carved anew (tools/ref/llama-context.cpp): when they disturb an
// encoder's rows, and two batches in which they do.
module OutputPending {
  import opened Division
  import opened OutputReorder
  import opened OutputLayout
  import opened OutputRuns

  // ---- two views ---------------------------------------------------------------------------------

  // Views of widths w and z, the second from cell base on.
  datatype Pair = Pair(w: nat, z: nat, base: nat)

  function StepBack(q: Pair, s: Swap, y: nat): nat {
    Partner(Move(s.i0 * q.w, s.i1 * q.w, q.w), Partner(Move(q.base + s.i0 * q.z, q.base + s.i1 * q.z, q.z), y))
  }

  // Where the contents of y come from under the first k swaps.
  function Back(q: Pair, log: seq<Swap>, k: nat, y: nat): nat
    requires k <= |log|
  {
    if k == 0 then y else Back(q, log, k - 1, StepBack(q, log[k - 1], y))
  }

  lemma {:induction false} SourceConcat(p: seq<Move>, r: seq<Move>, size: nat, x: nat)
    requires MovesOk(p, size) && MovesOk(r, size) && x < size
    ensures MovesOk(p + r, size) && Source(p + r, size, x) == Source(p, size, Source(r, size, x))
    decreases |p|
  {
    if p == [] {
      assert p + r == r;
    } else {
      assert (p + r)[1..] == p[1..] + r;
      SourceConcat(p[1..], r, size, x);
    }
  }

  lemma {:induction false} BackFrom(q: Pair, log: seq<Swap>, k: nat, y: nat)
    requires log != [] && k < |log|
    ensures Back(q, log, k + 1, y) == StepBack(q, log[0], Back(q, log[1..], k, y))
  {
    if k > 0 { BackFrom(q, log, k - 1, StepBack(q, log[k], y)); }
  }

  ghost predicate TwoViews(c: Config) {
    |c.views| == 2 && !c.views[0].perToken && !c.views[1].perToken && c.views[0].width > 0
  }

  function PairOf(c: Config, rows: nat): Pair
    requires |c.views| == 2
  {
    Pair(c.views[0].width, c.views[1].width, rows * c.views[0].width)
  }

  lemma PairMoves(c: Config, rows: nat, s: Swap)
    requires TwoViews(c)
    ensures var q := PairOf(c, rows); SwapMoves(c, rows, s, 0) == [Move(s.i0 * q.w, s.i1 * q.w, q.w), Move(q.base + s.i0 * q.z, q.base + s.i1 * q.z, q.z)]
  {
    assert Offset(c, rows, 0) == 0;
    assert Offset(c, rows, 1) == rows * c.views[0].width;
  }

  lemma PairSource(c: Config, rows: nat, s: Swap, size: nat, x: nat)
    requires TwoViews(c) && MovesOk(SwapMoves(c, rows, s, 0), size) && x < size
    ensures Source(SwapMoves(c, rows, s, 0), size, x) == StepBack(PairOf(c, rows), s, x)
  {
    PairMoves(c, rows, s);
    var moves := SwapMoves(c, rows, s, 0);
    assert moves[1..][1..] == [];
    assert Source(moves[1..], size, x) == Partner(moves[1], x);
  }

  lemma {:induction false} SourceIsBack(c: Config, rows: nat, log: seq<Swap>, size: nat, x: nat)
    requires TwoViews(c) && MovesOk(Moves(c, rows, log), size) && x < size
    ensures Source(Moves(c, rows, log), size, x) == Back(PairOf(c, rows), log, |log|, x)
    decreases |log|
  {
    if log != [] {
      var p, r := SwapMoves(c, rows, log[0], 0), Moves(c, rows, log[1..]);
      assert forall k :: 0 <= k < |p| ==> (p + r)[k] == p[k];
      assert forall k :: 0 <= k < |r| ==> (p + r)[|p| + k] == r[k];
      SourceConcat(p, r, size, x);
      SourceIsBack(c, rows, log[1..], size, x);
      PairSource(c, rows, log[0], size, Source(r, size, x));
      BackFrom(PairOf(c, rows), log, |log| - 1, x);
    }
  }

  // The cell p lies in row r of the first view and among the first n rows of the second.
  ghost predicate AtRow(q: Pair, n: nat, p: nat, r: nat) {
    q.base <= p < q.base + n * q.z && r * q.w <= p < r * q.w + q.w
  }

  lemma SecondStays(q: Pair, s: Swap, n: nat, p: nat, y: nat)
    requires n <= s.i0 < s.i1 && p < q.base + n * q.z
    ensures var x := Partner(Move(q.base + s.i0 * q.z, q.base + s.i1 * q.z, q.z), y); x == y || (y > p && x > p)
  {
    Widen(n, s.i0, q.z);
    Widen(s.i0, s.i1, q.z);
  }

  // A cell before p, in a row that no earlier swap puts in place, goes no further than another.
  lemma StepBelow(q: Pair, s: Swap, n: nat, p: nat, y: nat, a: nat)
    requires n <= s.i0 < s.i1 && p < q.base + n * q.z && s.i0 < a && a * q.w <= y < p
    ensures s.i0 * q.w <= StepBack(q, s, y) < p
  {
    SecondStays(q, s, n, p, y);
    NextMultiple(s.i0, a, q.w);
    NextMultiple(s.i0, s.i1, q.w);
  }

  lemma StepAbove(q: Pair, s: Swap, n: nat, p: nat, r: nat, y: nat)
    requires n <= s.i0 < s.i1 && AtRow(q, n, p, r) && s.i0 < r && y > p
    ensures StepBack(q, s, y) > p || s.i0 * q.w <= StepBack(q, s, y) < p
  {
    SecondStays(q, s, n, p, y);
    NextMultiple(s.i0, r, q.w);
    NextMultiple(s.i0, s.i1, q.w);
  }

  // Contents that have left p under swaps of rows from a on do not come from p.
  lemma {:induction false} StaysAway(q: Pair, log: seq<Swap>, k: nat, n: nat, p: nat, r: nat, y: nat, a: nat)
    requires k <= |log| && Rising(log) && (forall j :: 0 <= j < |log| ==> n <= log[j].i0 < log[j].i1)
    requires AtRow(q, n, p, r) && (k > 0 ==> log[k - 1].i0 < a)
    requires (a * q.w <= y < p) || (y > p && a <= r)
    ensures Back(q, log, k, y) != p
  {
    if k > 0 {
      var s := log[k - 1];
      if y < p { StepBelow(q, s, n, p, y, a); } else { StepAbove(q, s, n, p, r, y); }
      StaysAway(q, log, k - 1, n, p, r, StepBack(q, s, y), s.i0);
    }
  }

  ghost predicate Touches(s: Swap, r: nat) {
    s.i0 == r || s.i1 == r
  }

  lemma StepUntouched(q: Pair, s: Swap, n: nat, p: nat, r: nat)
    requires n <= s.i0 < s.i1 && AtRow(q, n, p, r) && !Touches(s, r)
    ensures StepBack(q, s, p) == p
  {
    SecondStays(q, s, n, p, p);
    OutsideRow(q.w, r, s.i0, p);
    OutsideRow(q.w, r, s.i1, p);
  }

  lemma OutsideRow(w: nat, r: nat, i: nat, p: nat)
    requires r * w <= p < r * w + w && i != r
    ensures !(i * w <= p < i * w + w)
  {
    if i < r { NextMultiple(i, r, w); } else { NextMultiple(r, i, w); }
  }

  lemma StepTouched(q: Pair, s: Swap, n: nat, p: nat, r: nat)
    requires n <= s.i0 < s.i1 && AtRow(q, n, p, r) && Touches(s, r)
    ensures r == s.i0 ==> StepBack(q, s, p) > p
    ensures r == s.i1 ==> s.i0 * q.w <= StepBack(q, s, p) < p
  {
    SecondStays(q, s, n, p, p);
    NextMultiple(s.i0, s.i1, q.w);
  }

  // A row that some swap touches ends with other contents.
  lemma {:induction false} TouchedMoves(q: Pair, log: seq<Swap>, k: nat, n: nat, p: nat, r: nat)
    requires k <= |log| && Rising(log) && (forall j :: 0 <= j < |log| ==> n <= log[j].i0 < log[j].i1)
    requires AtRow(q, n, p, r) && exists j :: 0 <= j < k && Touches(log[j], r)
    ensures Back(q, log, k, p) != p
  {
    var s := log[k - 1];
    if Touches(s, r) {
      StepTouched(q, s, n, p, r);
      StaysAway(q, log, k - 1, n, p, r, StepBack(q, s, p), s.i0);
    } else {
      StepUntouched(q, s, n, p, r);
      TouchedMoves(q, log, k - 1, n, p, r);
    }
  }

  lemma LaterKeepsFirst(q: Pair, s: Swap, n: nat, i: nat)
    requires i < s.i0 < s.i1 && q.w > 0 && n * q.w <= q.base && i < n
    ensures StepBack(q, s, i * q.w) == i * q.w
  {
    NextMultiple(i, n, q.w);
    assert i * q.w < q.base;
    NextMultiple(i, s.i0, q.w);
    NextMultiple(i, s.i1, q.w);
  }

  lemma FirstMoves(q: Pair, s: Swap, n: nat)
    requires s.i0 < s.i1 && q.w > 0 && n * q.w <= q.base && s.i0 < n
    ensures StepBack(q, s, s.i0 * q.w) == s.i1 * q.w
  {
    NextMultiple(s.i0, n, q.w);
  }

  // The first swap moves its row when that is one of the first n rows.
  lemma {:induction false} FirstRowMoves(q: Pair, log: seq<Swap>, k: nat, n: nat)
    requires 0 < k <= |log| && Rising(log) && (forall j :: 0 <= j < |log| ==> log[j].i0 < log[j].i1)
    requires q.w > 0 && n * q.w <= q.base && log[0].i0 < n
    ensures Back(q, log, k, log[0].i0 * q.w) == log[0].i1 * q.w
  {
    if k > 1 {
      LaterKeepsFirst(q, log[k - 1], n, log[0].i0);
      FirstRowMoves(q, log, k - 1, n);
    } else {
      FirstMoves(q, log[0], n);
      assert Back(q, log, 0, StepBack(q, log[0], log[0].i0 * q.w)) == StepBack(q, log[0], log[0].i0 * q.w);
    }
  }

  lemma FirstRowsLeft(log: seq<Swap>, n: nat)
    requires Rising(log) && log != [] && n <= log[0].i0
    ensures forall j :: 0 <= j < |log| ==> n <= log[j].i0
  {
  }

  // A cell of the encoded rows that a swapped row meets: it is the first view's row that meets it,
  // past the first view's end.
  ghost predicate InPair(q: Pair, n: nat, x: nat) {
    x < n * q.w || q.base <= x < q.base + n * q.z
  }

  lemma FirstInPair(c: Config, rows: nat, n: nat, x: nat)
    requires TwoViews(c) && InFirst(c, rows, n, x)
    ensures InPair(PairOf(c, rows), n, x)
  {
    assert Offset(c, rows, 0) == 0 && Offset(c, rows, 1) == rows * c.views[0].width;
  }

  lemma FirstMeets(q: Pair, s: Swap, n: nat, x: nat) returns (r: nat)
    requires n <= s.i0 < s.i1 && InPair(q, n, x) && !Avoids(Move(s.i0 * q.w, s.i1 * q.w, q.w), x)
    ensures AtRow(q, n, x, r) && Touches(s, r)
  {
    Widen(n, s.i0, q.w);
    Widen(n, s.i1, q.w);
    r := if s.i0 * q.w <= x < s.i0 * q.w + q.w then s.i0 else s.i1;
  }

  lemma SecondMisses(q: Pair, s: Swap, n: nat, x: nat)
    requires n <= s.i0 < s.i1 && n * q.w <= q.base && InPair(q, n, x)
    ensures Avoids(Move(q.base + s.i0 * q.z, q.base + s.i1 * q.z, q.z), x)
  {
    Widen(n, s.i0, q.z);
    Widen(n, s.i1, q.z);
  }

  lemma MeetsSecond(c: Config, rows: nat, s: Swap, n: nat, v: nat, x: nat) returns (r: nat)
    requires TwoViews(c) && n <= rows && n <= s.i0 < s.i1 && v < 2 && InFirst(c, rows, n, x) && !Avoids(ViewMove(c, rows, v, s), x)
    ensures AtRow(PairOf(c, rows), n, x, r) && Touches(s, r)
  {
    var q := PairOf(c, rows);
    assert Offset(c, rows, 0) == 0 && Offset(c, rows, 1) == q.base;
    FirstInPair(c, rows, n, x);
    if v == 0 {
      r := FirstMeets(q, s, n, x);
    } else {
      Widen(n, rows, q.w);
      SecondMisses(q, s, n, x);
    }
  }

  lemma NotClearMoves(c: Config, rows: nat, log: seq<Swap>, n: nat) returns (p: nat)
    requires TwoViews(c) && n <= rows && Rising(log) && (forall j :: 0 <= j < |log| ==> log[j].i0 < log[j].i1) && !Clear(c, rows, log, n)
    ensures InFirst(c, rows, n, p) && Back(PairOf(c, rows), log, |log|, p) != p
  {
    var q := PairOf(c, rows);
    var s, v, x: nat :| 0 <= s < |log| && 0 <= v < |c.views| && InFirst(c, rows, n, x) && !Avoids(ViewMove(c, rows, v, log[s]), x);
    if log[0].i0 < n {
      p := log[0].i0 * q.w;
      FirstRowFound(c, rows, n, log[0].i0);
      Widen(n, rows, q.w);
      FirstRowMoves(q, log, |log|, n);
      NextMultiple(log[0].i0, log[0].i1, q.w);
    } else {
      p := x;
      FirstRowsLeft(log, n);
      var r := MeetsSecond(c, rows, log[s], n, v, x);
      TouchedMoves(q, log, |log|, n, x, r);
    }
  }

  lemma FirstRowFound(c: Config, rows: nat, n: nat, i: nat)
    requires TwoViews(c) && i < n
    ensures InFirst(c, rows, n, i * c.views[0].width)
  {
    NextMultiple(i, n, c.views[0].width);
    assert Offset(c, rows, 0) == 0;
    assert OfView(c, rows, 0, n, i * c.views[0].width);
  }

  // With two views (logits and embeddings) the encoder's rows are read back right exactly when no
  // swapped row of either view, carved anew, meets them.
  lemma TwoViewsExactly(c: Config, m: Buffers, n: nat)
    requires Sound(c, m) && n <= c.nBatch && TwoViews(c)
    ensures (forall f: seq<real> :: CanEncode(c, m, n, f) ==> OutputRuns.Faithful(c, OutputRuns.Encode(c, m, n, f), Iota(n), f)) <==> Clear(c, Max(n, c.nSeq), m.log, n)
  {
    EncodeFaithfulExactly(c, m, n);
    if Clear(c, Max(n, c.nSeq), m.log, n) {
      ClearLeaves(c, m, n);
    } else {
      DisturbedTwo(c, m, n);
    }
  }

  lemma DisturbedTwo(c: Config, m: Buffers, n: nat)
    requires Sound(c, m) && n <= c.nBatch && TwoViews(c) && !Clear(c, Max(n, c.nSeq), m.log, n)
    ensures !Undisturbed(c, m, n)
  {
    var r := Reserved(c, m, n);
    var p := NotClearMoves(c, r.rows, m.log, n);
    MovesInside(c, r.rows, m.log, m.peak, |r.flat|);
    var v :| 0 <= v < |c.views| && !c.views[v].perToken && OfView(c, r.rows, v, n, p);
    FirstInside(c, r.rows, v, n, p);
    SourceIsBack(c, r.rows, m.log, |r.flat|, p);
  }

  // ---- two batches -------------------------------------------------------------------------------------

  // Logits and embeddings, one cell to a row.
  const SLIM: Config := Config([View(1, false), View(1, false)], 4, 2)

  lemma SwappedPairLog(out: seq<nat>)
    requires out == [0, 2, 1, 3]
    ensures DecodeLog(out) == [Swap(1, 2)]
  {
    assert out[1] == 2 && !InOrder(out);
    assert ArgMin(out, 0, 2) == 0 && ArgMin(out, 0, 3) == 0 && ArgMin(out, 0, 4) == 0;
    assert ArgMin(out, 1, 2) == 1 && ArgMin(out, 1, 3) == 2 && ArgMin(out, 1, 4) == 2;
    SortUnfold(out, 1, 2);
    var s := SwapAt(out, 1, 2);
    assert s == [0, 1, 2, 3];
    assert ArgMin(s, 2, 3) == 2 && ArgMin(s, 2, 4) == 2;
    assert SortLog(s, 3) == [] && SortLog(s, 2) == [];
  }

  lemma SlimOffsets(rows: nat)
    ensures Offset(SLIM, rows, 0) == 0 && Offset(SLIM, rows, 1) == rows && Total(SLIM, rows) == 2 * rows
  {
  }

  // A batch of four tokens whose outputs come in the order 0, 2, 1, 3 leaves a swap of rows 1 and
  // 2.  Encoding one token carves two rows for each view: row 1 and 2 of the first are now a stale
  // row and the embedding of the token.
  lemma PendingSwapDisturbs(m: Buffers, out: seq<nat>, f: seq<real>) returns (g: seq<real>)
    requires out == [0, 2, 1, 3] && OutputRuns.CanDecode(SLIM, m, out, f)
    ensures var d := OutputRuns.Decode(SLIM, m, out, f); Sound(SLIM, d) && CanEncode(SLIM, d, 1, g) && !OutputRuns.Faithful(SLIM, OutputRuns.Encode(SLIM, d, 1, g), Iota(1), g)
  {
    var d := OutputRuns.Decode(SLIM, m, out, f);
    DecodeSound(SLIM, m, out, f);
    SwappedPairLog(out);
    SlimDisturbed(d);
    g := OutputRuns.EncodeLosesRow(SLIM, d, 1);
  }

  lemma SlimDisturbed(d: Buffers)
    requires Sound(SLIM, d) && d.log == [Swap(1, 2)]
    ensures !Undisturbed(SLIM, d, 1)
  {
    var r, q, x := Reserved(SLIM, d, 1), PairOf(SLIM, 2), 2;
    SlimOffsets(2);
    assert r.rows == 2 && q == Pair(1, 1, 2);
    MovesInside(SLIM, r.rows, d.log, d.peak, |r.flat|);
    assert OfView(SLIM, 2, 1, 1, x);
    assert InFirst(SLIM, 2, 1, x);
    SourceIsBack(SLIM, 2, d.log, |r.flat|, x);
    assert StepBack(q, d.log[0], x) == 1;
    assert Back(q, d.log, 0, 1) == 1;
    assert Back(q, d.log, 1, x) == 1;
  }

  // ---- three views ---------------------------------------------------------------------------------------

  const BROAD: Config := Config([View(1, false), View(1, false), View(2, false)], 7, 2)

  lemma BroadOffsets()
    ensures Offset(BROAD, 2, 0) == 0 && Offset(BROAD, 2, 1) == 2 && Offset(BROAD, 2, 2) == 4
  {
    assert Offset(BROAD, 2, 1) == Offset(BROAD, 2, 0) + 2;
    assert Offset(BROAD, 2, 2) == Offset(BROAD, 2, 1) + 2;
  }

  function Three(a: Move, b: Move, d: Move, y: nat): nat {
    Partner(a, Partner(b, Partner(d, y)))
  }

  function BroadMove(at: nat, w: nat, s: Swap): Move {
    Move(at + w * s.i0, at + w * s.i1, w)
  }

  function BroadBack(s: Swap, y: nat): nat {
    Three(BroadMove(0, 1, s), BroadMove(2, 1, s), BroadMove(4, 2, s), y)
  }

  lemma BroadMoves(s: Swap)
    ensures SwapMoves(BROAD, 2, s, 0) == [BroadMove(0, 1, s), BroadMove(2, 1, s), BroadMove(4, 2, s)]
  {
    BroadOffsets();
  }

  lemma SourceThree(moves: seq<Move>, a: Move, b: Move, d: Move, size: nat, y: nat)
    requires moves == [a, b, d] && MovesOk(moves, size) && y < size
    ensures Source(moves, size, y) == Three(a, b, d, y)
  {
    var p, r := moves[1..], moves[1..][1..];
    assert r[1..] == [] && r[0] == d && p[0] == b;
    assert Source(r, size, y) == Partner(r[0], Source(r[1..], size, y));
    assert Source(p, size, y) == Partner(p[0], Source(r, size, y));
  }

  lemma BroadSource(s: Swap, moves: seq<Move>, size: nat, y: nat)
    requires moves == [BroadMove(0, 1, s), BroadMove(2, 1, s), BroadMove(4, 2, s)] && MovesOk(moves, size) && y < size
    ensures Source(moves, size, y) == BroadBack(s, y)
  {
    SourceThree(moves, BroadMove(0, 1, s), BroadMove(2, 1, s), BroadMove(4, 2, s), size, y);
  }

  lemma BroadStep(s: Swap, rest: seq<Swap>, size: nat, x: nat)
    requires MovesOk(Moves(BROAD, 2, [s] + rest), size) && x < size
    ensures MovesOk(Moves(BROAD, 2, rest), size)
    ensures Source(Moves(BROAD, 2, [s] + rest), size, x) == BroadBack(s, Source(Moves(BROAD, 2, rest), size, x))
  {
    var p, r := SwapMoves(BROAD, 2, s, 0), Moves(BROAD, 2, rest);
    assert ([s] + rest)[1..] == rest;
    assert Moves(BROAD, 2, [s] + rest) == p + r;
    assert forall k :: 0 <= k < |p| ==> (p + r)[k] == p[k];
    assert forall k :: 0 <= k < |r| ==> (p + r)[|p| + k] == r[k];
    SourceConcat(p, r, size, x);
    BroadMoves(s);
    BroadSource(s, p, size, Source(r, size, x));
  }

  lemma BroadReturns(size: nat, x: nat)
    requires MovesOk(Moves(BROAD, 2, [Swap(1, 3)] + ([Swap(3, 6)] + ([Swap(5, 6)] + []))), size) && x < size && (x == 0 || x == 2 || x == 4 || x == 5)
    ensures Source(Moves(BROAD, 2, [Swap(1, 3)] + ([Swap(3, 6)] + ([Swap(5, 6)] + []))), size, x) == x
  {
    BroadStep(Swap(1, 3), [Swap(3, 6)] + ([Swap(5, 6)] + []), size, x);
    BroadStep(Swap(3, 6), [Swap(5, 6)] + [], size, x);
    BroadStep(Swap(5, 6), [], size, x);
    assert Source(Moves(BROAD, 2, []), size, x) == x;
  }

  lemma BroadCells(x: nat)
    requires InFirst(BROAD, 2, 1, x)
    ensures x == 0 || x == 2 || x == 4 || x == 5
  {
    BroadOffsets();
    var v :| 0 <= v < |BROAD.views| && !BROAD.views[v].perToken && OfView(BROAD, 2, v, 1, x);
    assert v == 0 || v == 1 || v == 2;
  }

  // With three views the swaps of two views can cancel: they meet the row of the first view's
  // neighbour and yet leave it in place, so staying clear is not necessary.
  lemma ClearIsNotNecessary(m: Buffers)
    requires Sound(BROAD, m) && m.log == [Swap(1, 3), Swap(3, 6), Swap(5, 6)]
    ensures Undisturbed(BROAD, m, 1) && !Clear(BROAD, Max(1, BROAD.nSeq), m.log, 1)
  {
    var r := Reserved(BROAD, m, 1);
    MovesInside(BROAD, r.rows, m.log, m.peak, |r.flat|);
    assert m.log == [Swap(1, 3)] + ([Swap(3, 6)] + ([Swap(5, 6)] + []));
    forall x: nat | x < |r.flat| && InFirst(BROAD, 2, 1, x) ensures Source(Moves(BROAD, 2, m.log), |r.flat|, x) == x {
      BroadCells(x);
      BroadReturns(|r.flat|, x);
    }
    BroadMeets(m.log);
  }

  lemma BroadMeets(log: seq<Swap>)
    requires |log| == 3 && log[2] == Swap(5, 6)
    ensures !Clear(BROAD, 2, log, 1)
  {
    BroadOffsets();
    assert OfView(BROAD, 2, 2, 1, 5);
    assert InFirst(BROAD, 2, 1, 5);
    assert !Avoids(ViewMove(BROAD, 2, 0, log[2]), 5);
  }

  lemma ArgMinIs(s: seq<nat>, i: nat, j: nat)
    requires i <= j < |s| && forall k :: i <= k < |s| && k != j ==> s[j] < s[k]
    ensures ArgMin(s, i, |s|) == j
  {
  }

  // A batch of seven tokens leaves that log.
  lemma BroadLog(a: seq<nat>)
    requires a == [0, 5, 2, 1, 4, 6, 3]
    ensures DecodeLog(a) == [Swap(1, 3), Swap(3, 6), Swap(5, 6)]
  {
    assert a[1] == 5 && !InOrder(a);
    ArgMinIs(a, 0, 0);
    ArgMinIs(a, 1, 3);
    SortUnfold(a, 1, 3);
    var b := SwapAt(a, 1, 3);
    assert b == [0, 1, 2, 5, 4, 6, 3];
    BroadTail(b);
  }

  lemma BroadTail(b: seq<nat>)
    requires b == [0, 1, 2, 5, 4, 6, 3]
    ensures SortLog(b, 2) == [Swap(3, 6), Swap(5, 6)]
  {
    ArgMinIs(b, 2, 2);
    ArgMinIs(b, 3, 6);
    SortUnfold(b, 3, 6);
    var d := SwapAt(b, 3, 6);
    assert d == [0, 1, 2, 3, 4, 6, 5];
    ArgMinIs(d, 4, 4);
    ArgMinIs(d, 5, 6);
    SortUnfold(d, 5, 6);
    assert SortLog(SwapAt(d, 5, 6), 6) == [];
  }

  lemma CancellingSwaps(m: Buffers, out: seq<nat>, f: seq<real>)
    requires out == [0, 5, 2, 1, 4, 6, 3] && OutputRuns.CanDecode(BROAD, m, out, f)
    ensures var d := OutputRuns.Decode(BROAD, m, out, f); Sound(BROAD, d) && Undisturbed(BROAD, d, 1) && !Clear(BROAD, Max(1, BROAD.nSeq), d.log, 1)
  {
    DecodeSound(BROAD, m, out, f);
    BroadLog(out);
    ClearIsNotNecessary(OutputRuns.Decode(BROAD, m, out, f));
  }
}
