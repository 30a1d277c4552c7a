// Decoding, encoding and reading outputs on the one allocation (tools/ref/llama-context.cpp).
module OutputRuns {
  import opened Division
  import opened OutputReorder
  import opened OutputLayout

  // ids is output_ids, n is n_outputs, log is output_swaps; rows is what the last reservation
  // took for n_outputs_max, and the swaps of the log are of rows below peak.
  datatype Buffers = Buffers(ids: seq<int>, n: nat, log: seq<Swap>, flat: seq<real>, rows: nat, peak: nat)

  ghost predicate Sound(c: Config, m: Buffers) {
    && |m.ids| == c.nBatch && m.n <= m.rows && Total(c, m.rows) <= |m.flat|
    && InLog(m.log, m.peak) && Rising(m.log) && m.peak <= c.nBatch && Total(c, m.peak) <= |m.flat|
    && forall t :: 0 <= t < |m.ids| ==> -1 <= m.ids[t] < m.n
  }

  function Zeros(n: nat): (z: seq<real>)
    ensures |z| == n
  {
    seq(n, _ => 0.0)
  }

  // The allocation is kept while it is large enough.
  function Grown(flat: seq<real>, size: nat): (r: seq<real>)
    ensures size <= |r| && |flat| <= |r|
  {
    if |flat| < size then Zeros(size) else flat
  }

  // output_reserve.
  function Reserved(c: Config, m: Buffers, n: nat): (r: Buffers) {
    var rows := Max(n, c.nSeq);
    Buffers(Unset(c.nBatch), 0, m.log, Grown(m.flat, Total(c, rows)), rows, m.peak)
  }

  // ---- the two kinds of batches --------------------------------------------------------------------------

  // f is the buffer once the graph's results have been copied into it.
  ghost predicate CanDecode(c: Config, m: Buffers, out: seq<nat>, f: seq<real>) {
    && Positions(out, c.nBatch) && Distinct(out) && |out| <= c.nBatch
    && |f| == |Reserved(c, m, |out|).flat|
  }

  function Decode(c: Config, m: Buffers, out: seq<nat>, f: seq<real>): Buffers
    requires Positions(out, c.nBatch)
  {
    Buffers(DecodeIds(c.nBatch, out), |out|, DecodeLog(out), f, Max(|out|, c.nSeq), |out|)
  }

  // The cell belongs to one of the first n rows of a view that has a row for each output.
  ghost predicate InFirst(c: Config, rows: nat, n: nat, x: nat) {
    exists v :: 0 <= v < |c.views| && !c.views[v].perToken && OfView(c, rows, v, n, x)
  }

  ghost predicate OfView(c: Config, rows: nat, v: nat, n: nat, x: nat)
    requires v < |c.views|
  {
    Offset(c, rows, v) <= x < RowAt(c, rows, v, n)
  }

  // The graph of an encoder writes the first n rows of the views.
  ghost predicate CanEncode(c: Config, m: Buffers, n: nat, f: seq<real>) {
    var r := Reserved(c, m, n);
    && n <= c.nBatch && |f| == |r.flat|
    && forall x :: 0 <= x < |f| && (forall v :: 0 <= v < |c.views| ==> !OfView(c, r.rows, v, n, x)) ==> f[x] == r.flat[x]
  }

  function FirstIds(capacity: nat, n: nat): seq<int> {
    seq(capacity, i => if i < n then i else -1)
  }

  // encode leaves output_swaps as they are.
  function Encode(c: Config, m: Buffers, n: nat, f: seq<real>): Buffers {
    Buffers(FirstIds(c.nBatch, n), n, m.log, f, Max(n, c.nSeq), m.peak)
  }

  lemma SoundMoves(c: Config, m: Buffers)
    requires Sound(c, m)
    ensures MovesOk(Moves(c, m.rows, m.log), |m.flat|)
  {
    MovesInside(c, m.rows, m.log, m.peak, |m.flat|);
  }

  // output_reorder, which every accessor calls first.
  ghost function Access(c: Config, m: Buffers): (r: Buffers)
    requires Sound(c, m)
    ensures Sound(c, r) && |r.flat| == |m.flat|
  {
    SoundMoves(c, m);
    m.(flat := Play(m.flat, Moves(c, m.rows, m.log)), log := [])
  }

  // ---- reading ----------------------------------------------------------------------------------------------

  // Token t reads, in every view with a row for each output, the row that f holds k-th.
  ghost predicate Reads(c: Config, m: Buffers, f: seq<real>, t: int, k: nat)
    requires Sound(c, m) && k < m.rows
  {
    var j := ResolveRow(m.ids, m.n, t);
    j.Ok? && 0 <= j.value < m.rows && forall v :: 0 <= v < |c.views| && !c.views[v].perToken ==>
      RowsOf(c, m.rows, v, Access(c, m).flat)[j.value] == RowsOf(c, m.rows, v, f)[k]
  }

  // Every output token reads the row the graph wrote for it, and no other token reads any.  Index
  // -1 reads the row written for the last output token, and so on back to the first.
  ghost predicate Faithful(c: Config, m: Buffers, out: seq<nat>, f: seq<real>) {
    && Sound(c, m) && |out| == m.n && |f| == |m.flat|
    && (forall k :: 0 <= k < |out| ==> Reads(c, m, f, out[k], k))
    && (forall t: nat :: t !in out ==> ResolveRow(m.ids, m.n, t).Err?)
    && (forall t: int, i: nat :: FromEnd(out, t, i) ==> Reads(c, m, f, t, i))
    && (forall t: int :: t < -|out| ==> ResolveRow(m.ids, m.n, t).Err?)
  }

  lemma AccessKeepsFaith(c: Config, m: Buffers, out: seq<nat>, f: seq<real>)
    requires Faithful(c, m, out, f)
    ensures Faithful(c, Access(c, m), out, f)
  {
    var r := Access(c, m);
    assert Moves(c, r.rows, []) == [];
    assert Access(c, r) == r;
    forall k | 0 <= k < |out| ensures Reads(c, r, f, out[k], k) {
      assert Reads(c, m, f, out[k], k);
    }
    forall t: int, i: nat | FromEnd(out, t, i) ensures Reads(c, r, f, t, i) {
      assert Reads(c, m, f, t, i);
    }
  }

  // ---- decoding ---------------------------------------------------------------------------------------------

  // One view of the decoded buffers as a table of rows.
  function ViewOf(c: Config, m: Buffers, v: nat, f: seq<real>): Outputs<seq<real>>
    requires v < |c.views|
  {
    Outputs(m.ids, m.n, m.log, RowsOf(c, m.rows, v, f))
  }

  lemma DecodedView(c: Config, m: Buffers, out: seq<nat>, f: seq<real>, v: nat)
    requires CanDecode(c, m, out, f) && v < |c.views| && !c.views[v].perToken
    ensures var d := Decode(c, m, out, f); OutputReorder.Faithful(ViewOf(c, d, v, f), out, RowsOf(c, d.rows, v, f)[..|out|])
  {
    var d := Decode(c, m, out, f);
    var rows := RowsOf(c, d.rows, v, f);
    var before := Outputs(Unset(c.nBatch), 0, [], rows);
    assert rows[..|out|] + rows[|out|..] == rows;
    DecodeFaithful(before, out, rows[..|out|]);
  }

  lemma DecodeSound(c: Config, m: Buffers, out: seq<nat>, f: seq<real>)
    requires CanDecode(c, m, out, f)
    ensures Sound(c, Decode(c, m, out, f)) && Rooms(c, Max(|out|, c.nSeq), |out|, |f|)
  {
    var d := Decode(c, m, out, f);
    MoreRows(c, |out|, d.rows, |c.views|);
    DecodeValid(Outputs(Unset(c.nBatch), 0, [], out), out, out);
  }

  lemma DecodeReadsRow(c: Config, m: Buffers, out: seq<nat>, f: seq<real>, k: nat)
    requires CanDecode(c, m, out, f) && Sound(c, Decode(c, m, out, f)) && k < |out|
    ensures Reads(c, Decode(c, m, out, f), f, out[k], k)
  {
    var d := Decode(c, m, out, f);
    DecodeSound(c, m, out, f);
    var j := ResolveRow(d.ids, d.n, out[k]);
    DecodeFaithful(Outputs(Unset(c.nBatch), 0, [], out), out, out);
    assert OutputReorder.Reads(OutputReorder.Decode(Outputs(Unset(c.nBatch), 0, [], out), out, out), out[k], out[k]);
    forall v | 0 <= v < |c.views| && !c.views[v].perToken
      ensures RowsOf(c, d.rows, v, Access(c, d).flat)[j.value] == RowsOf(c, d.rows, v, f)[k]
    {
      DecodedView(c, m, out, f, v);
      LogRows(c, d.rows, |out|, d.log, v, f);
      assert OutputReorder.Reads(ViewOf(c, d, v, f), out[k], RowsOf(c, d.rows, v, f)[..|out|][k]);
    }
  }

  lemma DecodeFaithfully(c: Config, m: Buffers, out: seq<nat>, f: seq<real>)
    requires CanDecode(c, m, out, f)
    ensures Faithful(c, Decode(c, m, out, f), out, f)
  {
    DecodeSound(c, m, out, f);
    forall k | 0 <= k < |out| ensures Reads(c, Decode(c, m, out, f), f, out[k], k) {
      DecodeReadsRow(c, m, out, f, k);
    }
    forall t: int, i: nat | FromEnd(out, t, i) ensures Reads(c, Decode(c, m, out, f), f, t, i) {
      BackIsForth(c.nBatch, out, t, i);
      DecodeReadsRow(c, m, out, f, i);
    }
    DecodeFaithful(Outputs(Unset(c.nBatch), 0, [], out), out, out);
  }

  // ---- encoding over a pending log ------------------------------------------------------------------------

  lemma EncodeSound(c: Config, m: Buffers, n: nat, f: seq<real>)
    requires Sound(c, m) && CanEncode(c, m, n, f)
    ensures Sound(c, Encode(c, m, n, f))
  {
  }

  lemma FirstInside(c: Config, rows: nat, v: nat, n: nat, x: nat)
    requires v < |c.views| && n <= ViewRows(c, v, rows) && OfView(c, rows, v, n, x)
    ensures x < Offset(c, rows, v + 1) <= Total(c, rows)
  {
    Widen(n, ViewRows(c, v, rows), c.views[v].width);
    OffsetsRise(c, rows, v + 1, |c.views|);
  }

  // The pending swaps, carried out in the layout of the encoder's batch, leave the cells of its
  // rows in place.  This is known before the batch runs.
  ghost predicate Undisturbed(c: Config, m: Buffers, n: nat)
    requires Sound(c, m)
  {
    var r := Reserved(c, m, n);
    MovesInside(c, r.rows, m.log, m.peak, |r.flat|);
    forall x: nat :: x < |r.flat| && InFirst(c, r.rows, n, x) ==> Source(Moves(c, r.rows, m.log), |r.flat|, x) == x
  }

  lemma SameCells(flat: seq<real>, f: seq<real>, at: nat, w: nat)
    requires |flat| == |f| && at + w <= |f| && forall x :: at <= x < at + w ==> flat[x] == f[x]
    ensures Block(flat, at, w) == Block(f, at, w)
  {
  }

  lemma EncodedCell(c: Config, m: Buffers, n: nat, f: seq<real>, v: nat, x: nat)
    requires Sound(c, m) && CanEncode(c, m, n, f) && Undisturbed(c, m, n) && Sound(c, Encode(c, m, n, f))
    requires v < |c.views| && !c.views[v].perToken && x < |f| && OfView(c, Max(n, c.nSeq), v, n, x)
    ensures Access(c, Encode(c, m, n, f)).flat[x] == f[x]
  {
    var e := Encode(c, m, n, f);
    SoundMoves(c, e);
    assert InFirst(c, e.rows, n, x);
    PlayAt(f, Moves(c, e.rows, e.log), x);
  }

  lemma RowInFirst(c: Config, rows: nat, v: nat, n: nat, k: nat, x: nat)
    requires v < |c.views| && k < n && RowAt(c, rows, v, k) <= x < RowAt(c, rows, v, k) + c.views[v].width
    ensures OfView(c, rows, v, n, x)
  {
    NextMultiple(k, n, c.views[v].width);
  }

  lemma EncodedRow(c: Config, m: Buffers, n: nat, f: seq<real>, v: nat, k: nat)
    requires Sound(c, m) && CanEncode(c, m, n, f) && Undisturbed(c, m, n) && k < n && v < |c.views| && !c.views[v].perToken
    requires Sound(c, Encode(c, m, n, f))
    ensures var e := Encode(c, m, n, f); RowsOf(c, e.rows, v, Access(c, e).flat)[k] == RowsOf(c, e.rows, v, f)[k]
  {
    var e := Encode(c, m, n, f);
    var w, at, g := c.views[v].width, RowAt(c, e.rows, v, k), Access(c, e).flat;
    ViewRoom(c, e.rows, v, k);
    forall x | at <= x < at + w ensures g[x] == f[x] {
      RowInFirst(c, e.rows, v, n, k, x);
      EncodedCell(c, m, n, f, v, x);
    }
    SameCells(g, f, at, w);
  }

  lemma EncodeKeepsFaith(c: Config, m: Buffers, n: nat, f: seq<real>)
    requires Sound(c, m) && CanEncode(c, m, n, f) && Undisturbed(c, m, n)
    ensures Faithful(c, Encode(c, m, n, f), Iota(n), f)
  {
    EncodeSound(c, m, n, f);
    var e := Encode(c, m, n, f);
    forall k: nat | k < n ensures Reads(c, e, f, Iota(n)[k], k) {
      EncodedRead(c, m, n, f, k, k);
    }
    forall t: int, i: nat | FromEnd(Iota(n), t, i) ensures Reads(c, e, f, t, i) {
      IotaFromEnd(n, t, i);
      EncodedRead(c, m, n, f, t, i);
    }
    InIota(n);
  }

  // Token k and the index k - n both read row k.
  lemma EncodedRead(c: Config, m: Buffers, n: nat, f: seq<real>, t: int, k: nat)
    requires Sound(c, m) && CanEncode(c, m, n, f) && Undisturbed(c, m, n) && k < n && (t == k || t == k - n)
    requires Sound(c, Encode(c, m, n, f))
    ensures Reads(c, Encode(c, m, n, f), f, t, k)
  {
    var e := Encode(c, m, n, f);
    assert ResolveRow(e.ids, e.n, t) == Ok(k);
    forall v | 0 <= v < |c.views| && !c.views[v].perToken
      ensures RowsOf(c, e.rows, v, Access(c, e).flat)[k] == RowsOf(c, e.rows, v, f)[k]
    {
      EncodedRow(c, m, n, f, v, k);
    }
  }

  lemma SomeWidth(n: nat, w: nat, y: nat)
    requires y < n * w
    ensures w > 0
  {
  }

  // The row and the place in it of a cell of a view.
  lemma CellOfView(c: Config, rows: nat, v: nat, n: nat, x: nat) returns (k: nat)
    requires v < |c.views| && OfView(c, rows, v, n, x)
    ensures k < n && RowAt(c, rows, v, k) <= x < RowAt(c, rows, v, k) + c.views[v].width
  {
    var o, w := Offset(c, rows, v), c.views[v].width;
    SomeWidth(n, w, x - o);
    k := (x - o) / w;
    assert x - o == k * w + (x - o) % w;
    if k >= n { Widen(n, k, w); }
  }

  lemma DifferentCell(flat: seq<real>, f: seq<real>, at: nat, w: nat, x: nat)
    requires |flat| == |f| && at + w <= |f| && at <= x < at + w && flat[x] != f[x]
    ensures Block(flat, at, w) != Block(f, at, w)
  {
    assert flat[at..at + w][x - at] == flat[x] && f[at..at + w][x - at] == f[x];
  }

  lemma MovedCellRead(c: Config, m: Buffers, n: nat, f: seq<real>, v: nat, x: nat)
    requires Sound(c, m) && CanEncode(c, m, n, f) && Sound(c, Encode(c, m, n, f))
    requires v < |c.views| && !c.views[v].perToken && x < |f| && OfView(c, Max(n, c.nSeq), v, n, x) && Access(c, Encode(c, m, n, f)).flat[x] != f[x]
    ensures !Faithful(c, Encode(c, m, n, f), Iota(n), f)
  {
    var e := Encode(c, m, n, f);
    var k := CellOfView(c, e.rows, v, n, x);
    ViewRoom(c, e.rows, v, k);
    DifferentCell(Access(c, e).flat, f, RowAt(c, e.rows, v, k), c.views[v].width, x);
    assert Iota(n)[k] == k && ResolveRow(e.ids, e.n, k) == Ok(k);
    assert !Reads(c, e, f, Iota(n)[k], k);
  }

  // If the swaps move a cell of the encoded rows, some contents of them show it.
  lemma EncodeLosesRow(c: Config, m: Buffers, n: nat) returns (f: seq<real>)
    requires Sound(c, m) && n <= c.nBatch && !Undisturbed(c, m, n)
    ensures CanEncode(c, m, n, f) && !Faithful(c, Encode(c, m, n, f), Iota(n), f)
  {
    var r := Reserved(c, m, n);
    MovesInside(c, r.rows, m.log, m.peak, |r.flat|);
    var x: nat :| x < |r.flat| && InFirst(c, r.rows, n, x) && Source(Moves(c, r.rows, m.log), |r.flat|, x) != x;
    var v :| 0 <= v < |c.views| && !c.views[v].perToken && OfView(c, r.rows, v, n, x);
    var y := Source(Moves(c, r.rows, m.log), |r.flat|, x);
    f := r.flat[x := r.flat[y] + 1.0];
    EncodeSound(c, m, n, f);
    SoundMoves(c, Encode(c, m, n, f));
    PlayAt(f, Moves(c, r.rows, m.log), x);
    MovedCellRead(c, m, n, f, v, x);
  }

  // encode does not clear output_swaps, and carves the allocation anew.  Its rows are read back
  // right, whatever they hold, exactly when the pending swaps leave their cells in place.
  lemma EncodeFaithfulExactly(c: Config, m: Buffers, n: nat)
    requires Sound(c, m) && n <= c.nBatch
    ensures (forall f: seq<real> :: CanEncode(c, m, n, f) ==> Faithful(c, Encode(c, m, n, f), Iota(n), f)) <==> Undisturbed(c, m, n)
  {
    if Undisturbed(c, m, n) {
      forall f: seq<real> | CanEncode(c, m, n, f) ensures Faithful(c, Encode(c, m, n, f), Iota(n), f) {
        EncodeKeepsFaith(c, m, n, f);
      }
    } else {
      var f := EncodeLosesRow(c, m, n);
    }
  }

  // ---- when the swaps stay clear -----------------------------------------------------------------------------

  ghost predicate Avoids(m: Move, x: nat) {
    !(m.a <= x < m.a + m.w) && !(m.b <= x < m.b + m.w)
  }

  // No swapped row of any view meets the first n rows of a view.
  ghost predicate Clear(c: Config, rows: nat, log: seq<Swap>, n: nat) {
    forall s, v, x: nat :: 0 <= s < |log| && 0 <= v < |c.views| && InFirst(c, rows, n, x) ==> Avoids(ViewMove(c, rows, v, log[s]), x)
  }

  lemma {:induction false} SourceAvoids(moves: seq<Move>, size: nat, x: nat)
    requires MovesOk(moves, size) && x < size && forall k :: 0 <= k < |moves| ==> Avoids(moves[k], x)
    ensures Source(moves, size, x) == x
    decreases |moves|
  {
    if moves != [] { SourceAvoids(moves[1..], size, x); }
  }

  lemma {:induction false} LogAvoids(c: Config, rows: nat, log: seq<Swap>, x: nat)
    requires forall s, v :: 0 <= s < |log| && 0 <= v < |c.views| ==> Avoids(ViewMove(c, rows, v, log[s]), x)
    ensures forall k :: 0 <= k < |Moves(c, rows, log)| ==> Avoids(Moves(c, rows, log)[k], x)
    decreases |log|
  {
    if log != [] {
      assert forall s :: 0 <= s < |log[1..]| ==> log[1..][s] == log[s + 1];
      LogAvoids(c, rows, log[1..], x);
    }
  }

  lemma ClearLeaves(c: Config, m: Buffers, n: nat)
    requires Sound(c, m) && Clear(c, Max(n, c.nSeq), m.log, n)
    ensures Undisturbed(c, m, n)
  {
    var r := Reserved(c, m, n);
    MovesInside(c, r.rows, m.log, m.peak, |r.flat|);
    forall x: nat | x < |r.flat| && InFirst(c, r.rows, n, x) ensures Source(Moves(c, r.rows, m.log), |r.flat|, x) == x {
      LogAvoids(c, r.rows, m.log, x);
      SourceAvoids(Moves(c, r.rows, m.log), |r.flat|, x);
    }
  }

  // ---- whole runs ----------------------------------------------------------------------------------------------

  datatype Command = DecodeBatch(out: seq<nat>, f: seq<real>) | EncodeBatch(n: nat, f: seq<real>) | Read

  // The buffers, and the last batch with the rows written for it.
  datatype Session = Session(m: Buffers, out: seq<nat>, f: seq<real>)

  ghost predicate Allowed(c: Config, x: Session, cmd: Command) {
    Sound(c, x.m) &&
    match cmd
    case DecodeBatch(out, f) => CanDecode(c, x.m, out, f)
    case EncodeBatch(n, f) => CanEncode(c, x.m, n, f) && Undisturbed(c, x.m, n)
    case Read => true
  }

  ghost function Do(c: Config, x: Session, cmd: Command): Session
    requires Allowed(c, x, cmd)
  {
    match cmd
    case DecodeBatch(out, f) => Session(Decode(c, x.m, out, f), out, f)
    case EncodeBatch(n, f) => Session(Encode(c, x.m, n, f), Iota(n), f)
    case Read => x.(m := Access(c, x.m))
  }

  ghost predicate CanRun(c: Config, x: Session, cmds: seq<Command>)
    decreases |cmds|
  {
    cmds == [] || (Allowed(c, x, cmds[0]) && CanRun(c, Do(c, x, cmds[0]), cmds[1..]))
  }

  ghost function Run(c: Config, x: Session, cmds: seq<Command>): Session
    requires CanRun(c, x, cmds)
    decreases |cmds|
  {
    if cmds == [] then x else Run(c, Do(c, x, cmds[0]), cmds[1..])
  }

  lemma DoFaithful(c: Config, x: Session, cmd: Command)
    requires Faithful(c, x.m, x.out, x.f) && Allowed(c, x, cmd)
    ensures var y := Do(c, x, cmd); Faithful(c, y.m, y.out, y.f)
  {
    match cmd
    case DecodeBatch(out, f) => DecodeFaithfully(c, x.m, out, f);
    case EncodeBatch(n, f) => EncodeKeepsFaith(c, x.m, n, f);
    case Read => AccessKeepsFaith(c, x.m, x.out, x.f);
  }

  // However often and whenever the accessors are called, they return the rows of the last batch.
  lemma {:induction false} RunFaithful(c: Config, x: Session, cmds: seq<Command>)
    requires Faithful(c, x.m, x.out, x.f) && CanRun(c, x, cmds)
    ensures var y := Run(c, x, cmds); Faithful(c, y.m, y.out, y.f)
    decreases |cmds|
  {
    if cmds != [] {
      DoFaithful(c, x, cmds[0]);
      RunFaithful(c, Do(c, x, cmds[0]), cmds[1..]);
    }
  }
}
