// The one allocation behind the output rows (tools/ref/llama-context.cpp): every batch carves it
// into views anew, while swaps logged for an earlier batch may still be pending.
module OutputLayout {
  import opened Division
  import opened OutputReorder

  // A view has a row for each output, or one for each token of the batch.
  datatype View = View(width: nat, perToken: bool)

  // What does not change between batches.
  datatype Config = Config(views: seq<View>, nBatch: nat, nSeq: nat)

  function Max(a: nat, b: nat): nat {
    if a < b then b else a
  }

  function ViewRows(c: Config, v: nat, rows: nat): nat
    requires v < |c.views|
  {
    if c.views[v].perToken then c.nBatch else rows
  }

  // Where view v begins when outputs have the given number of rows.
  function Offset(c: Config, rows: nat, v: nat): nat
    requires v <= |c.views|
  {
    if v == 0 then 0 else Offset(c, rows, v - 1) + ViewRows(c, v - 1, rows) * c.views[v - 1].width
  }

  function Total(c: Config, rows: nat): nat {
    Offset(c, rows, |c.views|)
  }

  lemma {:induction false} OffsetsRise(c: Config, rows: nat, u: nat, v: nat)
    requires u <= v <= |c.views|
    ensures Offset(c, rows, u) <= Offset(c, rows, v)
  {
    if u < v { OffsetsRise(c, rows, u, v - 1); }
  }

  lemma {:induction false} MoreRows(c: Config, rows: nat, more: nat, v: nat)
    requires rows <= more && v <= |c.views|
    ensures Offset(c, rows, v) <= Offset(c, more, v)
  {
    if v > 0 {
      MoreRows(c, rows, more, v - 1);
      Widen(ViewRows(c, v - 1, rows), ViewRows(c, v - 1, more), c.views[v - 1].width);
    }
  }

  // ---- swaps of cells ------------------------------------------------------------------------------

  // Where row i of view v begins.
  function RowAt(c: Config, rows: nat, v: nat, i: nat): nat
    requires v < |c.views|
  {
    Offset(c, rows, v) + i * c.views[v].width
  }

  // The views lie one behind the other, each with its rows one behind the other.
  lemma ViewsAdjoin(c: Config, rows: nat, v: nat, i: nat)
    requires v < |c.views|
    ensures v == 0 ==> RowAt(c, rows, v, 0) == 0
    ensures RowAt(c, rows, v, i + 1) == RowAt(c, rows, v, i) + c.views[v].width
    ensures var end := RowAt(c, rows, v, 0) + (if c.views[v].perToken then c.nBatch else rows) * c.views[v].width;
            if v + 1 < |c.views| then RowAt(c, rows, v + 1, 0) == end else Total(c, rows) == end
  {
    assert (i + 1) * c.views[v].width == i * c.views[v].width + c.views[v].width;
  }

  // The w cells from a and the w cells from b change places.
  datatype Move = Move(a: nat, b: nat, w: nat)

  predicate MoveOk(m: Move, size: nat) {
    m.a + m.w <= m.b && m.b + m.w <= size
  }

  predicate MovesOk(moves: seq<Move>, size: nat) {
    forall k :: 0 <= k < |moves| ==> MoveOk(moves[k], size)
  }

  function Partner(m: Move, x: nat): (y: nat) {
    if m.a <= x < m.a + m.w then x - m.a + m.b else if m.b <= x < m.b + m.w then x - m.b + m.a else x
  }

  function Apply<T>(flat: seq<T>, m: Move): (r: seq<T>)
    requires MoveOk(m, |flat|)
    ensures |r| == |flat| && forall x :: 0 <= x < |flat| ==> r[x] == flat[Partner(m, x)]
  {
    seq(|flat|, x requires 0 <= x < |flat| => flat[Partner(m, x)])
  }

  function Play<T>(flat: seq<T>, moves: seq<Move>): (r: seq<T>)
    requires MovesOk(moves, |flat|)
    ensures |r| == |flat|
    decreases |moves|
  {
    if moves == [] then flat else Play(Apply(flat, moves[0]), moves[1..])
  }

  // The cell whose contents the moves bring to x.
  function Source(moves: seq<Move>, size: nat, x: nat): (y: nat)
    requires MovesOk(moves, size) && x < size
    ensures y < size
    decreases |moves|
  {
    if moves == [] then x else Partner(moves[0], Source(moves[1..], size, x))
  }

  lemma {:induction false} PlayAt<T>(flat: seq<T>, moves: seq<Move>, x: nat)
    requires MovesOk(moves, |flat|) && x < |flat|
    ensures Play(flat, moves)[x] == flat[Source(moves, |flat|, x)]
    decreases |moves|
  {
    if moves != [] { PlayAt(Apply(flat, moves[0]), moves[1..], x); }
  }

  lemma {:induction false} PlayConcat<T>(flat: seq<T>, p: seq<Move>, q: seq<Move>)
    requires MovesOk(p, |flat|) && MovesOk(q, |flat|)
    ensures MovesOk(p + q, |flat|) && Play(flat, p + q) == Play(Play(flat, p), q)
    decreases |p|
  {
    if p == [] {
      assert p + q == q;
    } else {
      assert (p + q)[1..] == p[1..] + q;
      PlayConcat(Apply(flat, p[0]), p[1..], q);
    }
  }

  // ---- the swaps of a log in the current layout ---------------------------------------------------------

  function ViewMove(c: Config, rows: nat, v: nat, s: Swap): Move
    requires v < |c.views|
  {
    Move(RowAt(c, rows, v, s.i0), RowAt(c, rows, v, s.i1), c.views[v].width)
  }

  // One entry of the log, in views v and up.
  function SwapMoves(c: Config, rows: nat, s: Swap, v: nat): (moves: seq<Move>)
    requires v <= |c.views|
    ensures |moves| == |c.views| - v && forall k :: 0 <= k < |moves| ==> moves[k] == ViewMove(c, rows, v + k, s)
    decreases |c.views| - v
  {
    if v == |c.views| then [] else [ViewMove(c, rows, v, s)] + SwapMoves(c, rows, s, v + 1)
  }

  function Moves(c: Config, rows: nat, log: seq<Swap>): seq<Move> {
    if log == [] then [] else SwapMoves(c, rows, log[0], 0) + Moves(c, rows, log[1..])
  }

  lemma ViewRoom(c: Config, rows: nat, v: nat, i: nat)
    requires v < |c.views| && i < ViewRows(c, v, rows)
    ensures RowAt(c, rows, v, i) + c.views[v].width <= Offset(c, rows, v + 1) <= Total(c, rows)
  {
    NextMultiple(i, ViewRows(c, v, rows), c.views[v].width);
    OffsetsRise(c, rows, v + 1, |c.views|);
  }

  // Swaps of rows below k stay inside any buffer that held k rows and holds the current layout.
  lemma MoveInside(c: Config, rows: nat, v: nat, s: Swap, k: nat, size: nat)
    requires v < |c.views| && s.i0 < s.i1 < k <= c.nBatch && Total(c, k) <= size && Total(c, rows) <= size
    ensures MoveOk(ViewMove(c, rows, v, s), size)
  {
    NextMultiple(s.i0, s.i1, c.views[v].width);
    ViewRoom(c, Max(k, rows), v, s.i1);
    MoreRows(c, rows, Max(k, rows), v);
  }

  lemma {:induction false} MovesInside(c: Config, rows: nat, log: seq<Swap>, k: nat, size: nat)
    requires InLog(log, k) && k <= c.nBatch && Total(c, k) <= size && Total(c, rows) <= size
    ensures MovesOk(Moves(c, rows, log), size)
    decreases |log|
  {
    if log != [] {
      MovesInside(c, rows, log[1..], k, size);
      forall v | 0 <= v < |c.views| ensures MoveOk(ViewMove(c, rows, v, log[0]), size) {
        MoveInside(c, rows, v, log[0], k, size);
      }
    }
  }

  // ---- rows of a view -----------------------------------------------------------------------------------

  function Block<T>(flat: seq<T>, at: nat, w: nat): seq<T> {
    if at + w <= |flat| then flat[at..at + w] else []
  }

  function RowsOf<T>(c: Config, rows: nat, v: nat, flat: seq<T>): (r: seq<seq<T>>)
    requires v < |c.views|
    ensures |r| == ViewRows(c, v, rows)
  {
    seq(ViewRows(c, v, rows), (i: nat) => Block(flat, RowAt(c, rows, v, i), c.views[v].width))
  }

  lemma BlockApart<T>(flat: seq<T>, m: Move, at: nat, w: nat)
    requires MoveOk(m, |flat|) && at + w <= |flat|
    requires (at + w <= m.a || m.a + m.w <= at) && (at + w <= m.b || m.b + m.w <= at)
    ensures Block(Apply(flat, m), at, w) == Block(flat, at, w)
  {
  }

  lemma BlocksSwap<T>(flat: seq<T>, m: Move)
    requires MoveOk(m, |flat|)
    ensures Block(Apply(flat, m), m.a, m.w) == Block(flat, m.b, m.w) && Block(Apply(flat, m), m.b, m.w) == Block(flat, m.a, m.w)
  {
  }

  lemma RowsApart(o: nat, w: nat, i: nat, j: nat)
    requires i != j
    ensures o + i * w + w <= o + j * w || o + j * w + w <= o + i * w
  {
    if i < j { NextMultiple(i, j, w); } else { NextMultiple(j, i, w); }
  }

  lemma OtherRow<T>(c: Config, rows: nat, v: nat, s: Swap, flat: seq<T>, i: nat)
    requires v < |c.views| && s.i0 < s.i1 < ViewRows(c, v, rows) && Total(c, rows) <= |flat| && MoveOk(ViewMove(c, rows, v, s), |flat|)
    requires i < ViewRows(c, v, rows) && i != s.i0 && i != s.i1
    ensures RowsOf(c, rows, v, Apply(flat, ViewMove(c, rows, v, s)))[i] == RowsOf(c, rows, v, flat)[i]
  {
    ViewRoom(c, rows, v, i);
    RowsApart(Offset(c, rows, v), c.views[v].width, i, s.i0);
    RowsApart(Offset(c, rows, v), c.views[v].width, i, s.i1);
    BlockApart(flat, ViewMove(c, rows, v, s), RowAt(c, rows, v, i), c.views[v].width);
  }

  lemma OwnRows<T>(c: Config, rows: nat, v: nat, s: Swap, flat: seq<T>)
    requires v < |c.views| && s.i0 < s.i1 < ViewRows(c, v, rows) && Total(c, rows) <= |flat| && MoveOk(ViewMove(c, rows, v, s), |flat|)
    ensures RowsOf(c, rows, v, Apply(flat, ViewMove(c, rows, v, s))) == SwapAt(RowsOf(c, rows, v, flat), s.i0, s.i1)
  {
    BlocksSwap(flat, ViewMove(c, rows, v, s));
    forall i: nat | i < ViewRows(c, v, rows) && i != s.i0 && i != s.i1
      ensures RowsOf(c, rows, v, Apply(flat, ViewMove(c, rows, v, s)))[i] == RowsOf(c, rows, v, flat)[i]
    {
      OtherRow(c, rows, v, s, flat, i);
    }
  }

  lemma ViewsApart(c: Config, rows: nat, u: nat, v: nat, i: nat, j: nat)
    requires u < |c.views| && v < |c.views| && u != v && i < ViewRows(c, u, rows) && j < ViewRows(c, v, rows)
    ensures RowAt(c, rows, u, i) + c.views[u].width <= RowAt(c, rows, v, j) || RowAt(c, rows, v, j) + c.views[v].width <= RowAt(c, rows, u, i)
  {
    if u < v { ViewsRise(c, rows, u, v, i, j); } else { ViewsRise(c, rows, v, u, j, i); }
  }

  lemma ViewsRise(c: Config, rows: nat, u: nat, v: nat, i: nat, j: nat)
    requires u < v < |c.views| && i < ViewRows(c, u, rows)
    ensures RowAt(c, rows, u, i) + c.views[u].width <= RowAt(c, rows, v, j)
  {
    ViewRoom(c, rows, u, i);
    OffsetsRise(c, rows, u + 1, v);
  }

  lemma ForeignRows<T>(c: Config, rows: nat, u: nat, v: nat, s: Swap, flat: seq<T>)
    requires u < |c.views| && v < |c.views| && u != v && Total(c, rows) <= |flat|
    requires s.i0 < s.i1 < ViewRows(c, u, rows) && MoveOk(ViewMove(c, rows, u, s), |flat|)
    ensures RowsOf(c, rows, v, Apply(flat, ViewMove(c, rows, u, s))) == RowsOf(c, rows, v, flat)
  {
    var m := ViewMove(c, rows, u, s);
    forall i: nat | i < ViewRows(c, v, rows) ensures RowsOf(c, rows, v, Apply(flat, m))[i] == RowsOf(c, rows, v, flat)[i] {
      ViewRoom(c, rows, v, i);
      ViewsApart(c, rows, u, v, s.i0, i);
      ViewsApart(c, rows, u, v, s.i1, i);
      BlockApart(flat, m, RowAt(c, rows, v, i), c.views[v].width);
    }
  }

  // Every view has room for the rows of the log.
  ghost predicate Rooms(c: Config, rows: nat, k: nat, size: nat) {
    k <= c.nBatch && k <= rows && Total(c, rows) <= size
  }

  lemma Inside(c: Config, rows: nat, k: nat, size: nat, s: Swap)
    requires Rooms(c, rows, k, size) && s.i0 < s.i1 < k
    ensures forall v :: 0 <= v < |c.views| ==> MoveOk(ViewMove(c, rows, v, s), size)
  {
    MoreRows(c, k, rows, |c.views|);
    forall v | 0 <= v < |c.views| ensures MoveOk(ViewMove(c, rows, v, s), size) {
      MoveInside(c, rows, v, s, k, size);
    }
  }

  // One entry of the log swaps two rows of every view.
  lemma {:induction false} EntryRows<T>(c: Config, rows: nat, k: nat, s: Swap, u: nat, v: nat, flat: seq<T>)
    requires Rooms(c, rows, k, |flat|) && s.i0 < s.i1 < k && u <= |c.views| && v < |c.views|
    ensures MovesOk(SwapMoves(c, rows, s, u), |flat|)
    ensures RowsOf(c, rows, v, Play(flat, SwapMoves(c, rows, s, u))) == if u <= v then SwapAt(RowsOf(c, rows, v, flat), s.i0, s.i1) else RowsOf(c, rows, v, flat)
    decreases |c.views| - u
  {
    Inside(c, rows, k, |flat|, s);
    if u < |c.views| {
      var m := ViewMove(c, rows, u, s);
      assert SwapMoves(c, rows, s, u)[1..] == SwapMoves(c, rows, s, u + 1);
      EntryRows(c, rows, k, s, u + 1, v, Apply(flat, m));
      if u == v { OwnRows(c, rows, v, s, flat); } else { ForeignRows(c, rows, u, v, s, flat); }
    }
  }

  // While the rows of the log lie inside the views, each view's rows are replayed.
  lemma {:induction false} LogRows<T>(c: Config, rows: nat, k: nat, log: seq<Swap>, v: nat, flat: seq<T>)
    requires Rooms(c, rows, k, |flat|) && InLog(log, k) && v < |c.views|
    ensures MovesOk(Moves(c, rows, log), |flat|)
    ensures RowsOf(c, rows, v, Play(flat, Moves(c, rows, log))) == Replay(RowsOf(c, rows, v, flat), log)
    decreases |log|
  {
    if log != [] {
      var first := SwapMoves(c, rows, log[0], 0);
      EntryRows(c, rows, k, log[0], 0, v, flat);
      LogRows(c, rows, k, log[1..], v, Play(flat, first));
      PlayConcat(flat, first, Moves(c, rows, log[1..]));
    }
  }
}
