// The output buffer: one flat array, the id table and the swap log, updated in place.
module OutputBuffer {
  import opened OutputReorder
  import opened OutputLayout
  import opened OutputRuns

  ghost predicate Led(s: seq<nat>, now: seq<nat>, log: seq<Swap>) {
    InLog(log, |s|) && Replay(s, log) == now
  }

  lemma LedOn(s: seq<nat>, now: seq<nat>, log: seq<Swap>, x: Swap)
    requires Led(s, now, log) && x.i0 < x.i1 < |now|
    ensures Led(s, SwapAt(now, x.i0, x.i1), log + [x])
  {
    ReplaySnoc(s, log, x);
  }

  // From s the log has led to now, and the sort still has to log what follows from i on.
  ghost predicate SortsOn(s: seq<nat>, now: seq<nat>, log: seq<Swap>, i: nat) {
    i <= |now| && Led(s, now, log) && SortLog(s, 0) == log + SortLog(now, i)
  }

  lemma LogRegroup(log: seq<Swap>, x: Swap, rest: seq<Swap>)
    ensures log + ([x] + rest) == log + [x] + rest
  {
  }

  lemma SortStep(s: seq<nat>, now: seq<nat>, log: seq<Swap>, i: nat, j: nat)
    requires SortsOn(s, now, log, i) && i + 1 < |now| && i < j == ArgMin(now, i, |now|)
    ensures SortsOn(s, SwapAt(now, i, j), log + [Swap(i, j)], i + 1)
  {
    LedOn(s, now, log, Swap(i, j));
    LogGrows(log, now, i, j);
  }

  lemma LogGrows(log: seq<Swap>, now: seq<nat>, i: nat, j: nat)
    requires i + 1 < |now| && i < j == ArgMin(now, i, |now|)
    ensures log + SortLog(now, i) == log + [Swap(i, j)] + SortLog(SwapAt(now, i, j), i + 1)
  {
    SortUnfold(now, i, j);
    LogRegroup(log, Swap(i, j), SortLog(SwapAt(now, i, j), i + 1));
  }

  lemma SortSkip(s: seq<nat>, now: seq<nat>, log: seq<Swap>, i: nat)
    requires SortsOn(s, now, log, i) && i + 1 < |now| && i == ArgMin(now, i, |now|)
    ensures SortsOn(s, now, log, i + 1)
  {
  }

  lemma SortEnds(s: seq<nat>, now: seq<nat>, log: seq<Swap>, i: nat)
    requires SortsOn(s, now, log, i) && i + 1 >= |now|
    ensures log == SortLog(s, 0) && now == Replay(s, log)
  {
  }

  method SwapEntries(a: array<nat>, i: nat, j: nat)
    requires i < a.Length && j < a.Length
    modifies a
    ensures a[..] == SwapAt(old(a[..]), i, j)
  {
    a[i], a[j] := a[j], a[i];
  }

  // The first k cells of the two ranges have changed places.
  ghost predicate CellsSwapped(was: seq<real>, now: seq<real>, m: Move, k: nat)
    requires MoveOk(m, |was|) && k <= m.w
  {
    |now| == |was| && forall x :: 0 <= x < |was| ==> now[x] == was[Partner(Move(m.a, m.b, k), x)]
  }

  lemma NextCell(was: seq<real>, now: seq<real>, m: Move, k: nat)
    requires MoveOk(m, |was|) && k < m.w && CellsSwapped(was, now, m, k)
    ensures CellsSwapped(was, now[m.a + k := now[m.b + k]][m.b + k := now[m.a + k]], m, k + 1)
  {
  }

  lemma PlayNext(f: seq<real>, moves: seq<Move>, v: nat)
    requires MovesOk(moves, |f|) && v < |moves|
    ensures Play(f, moves[v..]) == Play(Apply(f, moves[v]), moves[v + 1..])
  {
    assert moves[v..][1..] == moves[v + 1..];
  }

  class OutputTable {
    const config: Config
    const outputIds: array<int>
    var flat: array<real>
    var nOutputs: nat
    var outputSwaps: seq<Swap>
    var rows: nat
    ghost var peak: nat

    ghost function View(): Buffers
      reads this, outputIds, flat
    {
      Buffers(outputIds[..], nOutputs, outputSwaps, flat[..], rows, peak)
    }

    // The inner loops of output_reorder.
    method SwapCells(m: Move)
      requires MoveOk(m, flat.Length)
      modifies flat
      ensures flat[..] == Apply(old(flat[..]), m)
    {
      ghost var was := flat[..];
      for k := 0 to m.w
        invariant flat.Length == |was| && CellsSwapped(was, flat[..], m, k)
      {
        NextCell(was, flat[..], m, k);
        flat[m.a + k], flat[m.b + k] := flat[m.b + k], flat[m.a + k];
      }
    }

    method SwapView(v: nat, offset: nat, s: Swap)
      requires v < |config.views| && offset == Offset(config, rows, v) && MoveOk(ViewMove(config, rows, v, s), flat.Length)
      modifies flat
      ensures flat[..] == Apply(old(flat[..]), ViewMove(config, rows, v, s))
    {
      var w := config.views[v].width;
      var m := Move(offset + s.i0 * w, offset + s.i1 * w, w);
      assert m == ViewMove(config, rows, v, s);
      SwapCells(m);
    }

    // One logged swap, in all views.
    method SwapRows(s: Swap)
      requires MovesOk(SwapMoves(config, rows, s, 0), flat.Length)
      modifies flat
      ensures flat[..] == Play(old(flat[..]), SwapMoves(config, rows, s, 0))
    {
      ghost var was, moves := flat[..], SwapMoves(config, rows, s, 0);
      var offset := 0;
      for v := 0 to |config.views|
        invariant flat.Length == |was| && offset == Offset(config, rows, v)
        invariant Play(flat[..], moves[v..]) == Play(was, moves)
      {
        PlayNext(flat[..], moves, v);
        SwapView(v, offset, s);
        offset := offset + (if config.views[v].perToken then config.nBatch else rows) * config.views[v].width;
      }
    }

    method Reorder()
      requires Sound(config, View())
      modifies this`outputSwaps, flat
      ensures View() == Access(config, old(View()))
    {
      ghost var was, log := flat[..], outputSwaps;
      SoundMoves(config, View());
      assert log[0..] == log;
      for s := 0 to |outputSwaps|
        invariant outputSwaps == log && flat.Length == |was|
        invariant MovesOk(Moves(config, rows, log[s..]), |was|) && Play(flat[..], Moves(config, rows, log[s..])) == Play(was, Moves(config, rows, log))
      {
        NextEntry(log, s, |was|, flat[..]);
        SwapRows(outputSwaps[s]);
      }
      assert Moves(config, rows, []) == [];
      outputSwaps := [];
    }

    lemma NextEntry(log: seq<Swap>, s: nat, size: nat, f: seq<real>)
      requires s < |log| && MovesOk(Moves(config, rows, log[s..]), size) && |f| == size
      ensures MovesOk(SwapMoves(config, rows, log[s], 0), size) && MovesOk(Moves(config, rows, log[s + 1..]), size)
      ensures Play(f, Moves(config, rows, log[s..])) == Play(Play(f, SwapMoves(config, rows, log[s], 0)), Moves(config, rows, log[s + 1..]))
    {
      var p, q := SwapMoves(config, rows, log[s], 0), Moves(config, rows, log[s + 1..]);
      assert log[s..][1..] == log[s + 1..];
      assert forall k :: 0 <= k < |p| ==> (p + q)[k] == p[k];
      assert forall k :: 0 <= k < |q| ==> (p + q)[|p| + k] == q[k];
      PlayConcat(f, p, q);
    }

    method ResolveRow(i: int) returns (r: Result<int>)
      ensures r == OutputReorder.ResolveRow(outputIds[..], nOutputs, i)
      ensures i < 0 ==> r == if -i <= nOutputs then Ok(nOutputs + i) else Err(NegativeOutOfRange)
    {
      var j := -1;
      if i < 0 {
        j := nOutputs + i;
        if j < 0 {
          return Err(NegativeOutOfRange);
        }
      } else if i >= outputIds.Length {
        return Err(OutOfRange);
      } else {
        j := outputIds[i];
      }
      if j < 0 {
        return Err(NotAnOutput);
      }
      if j >= nOutputs {
        return Err(Corrupt);
      }
      return Ok(j);
    }

    // The accessors that return a pointer to a row, here the cell it begins at.
    method GetIth(v: nat, i: int) returns (r: Result<int>)
      requires Sound(config, View()) && v < |config.views|
      modifies this`outputSwaps, flat
      ensures View() == Access(config, old(View()))
      ensures var j := OutputReorder.ResolveRow(outputIds[..], nOutputs, i); r == if j.Ok? then Ok(RowAt(config, rows, v, j.value)) else j
    {
      Reorder();
      r := ResolveRow(i);
      if r.Ok? {
        var offset := ViewOffset(v);
        r := Ok(offset + r.value * config.views[v].width);
      }
    }

    // Where output_reserve puts a view.
    method ViewOffset(v: nat) returns (offset: nat)
      requires v <= |config.views|
      ensures offset == Offset(config, rows, v)
    {
      offset := 0;
      for u := 0 to v
        invariant offset == Offset(config, rows, u)
      {
        offset := offset + (if config.views[u].perToken then config.nBatch else rows) * config.views[u].width;
      }
    }

    method Reserve(n: nat) returns (nOutputsMax: nat)
      requires outputIds.Length == config.nBatch
      modifies this, outputIds
      ensures View() == Reserved(config, old(View()), n) && nOutputsMax == if n < config.nSeq then config.nSeq else n
      ensures flat == old(flat) || fresh(flat)
    {
      rows := Max(n, config.nSeq);
      var size := ViewOffset(|config.views|);
      if flat.Length < size {
        flat := new real[size](_ => 0.0);
        assert flat[..] == Zeros(size);
      }
      FillIds();
      nOutputs := 0;
      return rows;
    }

    method FillIds()
      modifies outputIds
      ensures outputIds[..] == Unset(outputIds.Length)
    {
      for i := 0 to outputIds.Length
        invariant forall k :: 0 <= k < i ==> outputIds[k] == -1
      {
        outputIds[i] := -1;
      }
    }

    // The first loop after the batch, and whether the outputs are in order already.
    method PlaceIds(out: array<nat>) returns (sorted: bool)
      requires Positions(out[..], outputIds.Length)
      modifies outputIds
      ensures outputIds[..] == Placed(old(outputIds[..]), out[..], out.Length)
      ensures sorted <==> InOrder(out[..])
    {
      ghost var ids, s := outputIds[..], out[..];
      sorted := true;
      for i := 0 to out.Length
        invariant out[..] == s && outputIds[..] == Placed(ids, s, i)
        invariant sorted <==> forall k :: 0 <= k < i ==> out[k] == k
      {
        outputIds[out[i]] := i;
        if out[i] != i {
          sorted := false;
        }
      }
    }

    method Least(out: array<nat>, i: nat) returns (jMin: nat)
      requires i < out.Length
      ensures jMin == ArgMin(out[..], i, out.Length)
    {
      jMin := i;
      for j := i + 1 to out.Length
        invariant jMin == ArgMin(out[..], i, j)
      {
        if out[j] < out[jMin] {
          jMin := j;
        }
      }
    }

    method SortLoop(out: array<nat>, ghost s: seq<nat>) returns (ghost i: nat)
      requires outputSwaps == [] && s == out[..]
      modifies this`outputSwaps, out
      ensures SortsOn(s, out[..], outputSwaps, i) && i + 1 >= out.Length
    {
      var k := 0;
      while k + 1 < out.Length
        invariant k <= out.Length && SortsOn(s, out[..], outputSwaps, k)
        decreases out.Length - k
      {
        SelectionRound(out, k, s);
        k := k + 1;
      }
      i := k;
    }

    // The selection sort, which remembers its swaps.
    method SelectionRound(out: array<nat>, i: nat, ghost s: seq<nat>)
      requires i + 1 < out.Length && SortsOn(s, out[..], outputSwaps, i)
      modifies this`outputSwaps, out
      ensures SortsOn(s, out[..], outputSwaps, i + 1)
    {
      var j := Least(out, i);
      if j == i {
        SortSkip(s, out[..], outputSwaps, i);
      } else {
        SortStep(s, out[..], outputSwaps, i, j);
        SwapEntries(out, i, j);
        outputSwaps := outputSwaps + [Swap(i, j)];
      }
    }

    // The selection sort, which remembers its swaps.
    method SelectionSort(out: array<nat>)
      requires outputSwaps == []
      modifies this`outputSwaps, out
      ensures outputSwaps == SortLog(old(out[..]), 0)
      ensures out[..] == Replay(old(out[..]), outputSwaps)
    {
      ghost var s := out[..];
      ghost var i := SortLoop(out, s);
      SortEnds(s, out[..], outputSwaps, i);
    }

    // The end of decode: n_outputs, output_ids and output_swaps for the outputs of the batch,
    // whose rows each view holds in the order they were written.
    method MapOutputs(out: array<nat>)
      requires outputIds.Length == config.nBatch && outputSwaps == [] && outputIds[..] == Unset(config.nBatch)
      requires rows == Max(out.Length, config.nSeq) && Total(config, rows) <= flat.Length
      requires Positions(out[..], config.nBatch) && Distinct(out[..]) && out.Length <= config.nBatch
      modifies this`nOutputs, this`outputSwaps, this`peak, outputIds, out
      ensures View() == OutputRuns.Decode(config, old(View()), old(out[..]), old(flat[..]))
      ensures OutputRuns.Faithful(config, View(), old(out[..]), old(flat[..]))
    {
      ghost var s, before := out[..], View();
      nOutputs := out.Length;
      peak := out.Length;
      var sorted := PlaceIds(out);
      if !sorted && nOutputs > 1 {
        SelectionSort(out);
        ReplayPositions(s, outputSwaps, outputIds.Length);
        FillIds();
        sorted := PlaceIds(out);
      }
      DecodeFaithfully(config, before, s, flat[..]);
    }

    // The ids that encode sets, one row to a token; the log stays.
    method MapTokens(n: nat)
      requires outputIds.Length == config.nBatch && outputIds[..] == Unset(config.nBatch) && n <= config.nBatch
      requires rows == Max(n, config.nSeq)
      modifies this`nOutputs, outputIds
      ensures View() == OutputRuns.Encode(config, old(View()), n, old(flat[..]))
    {
      for i := 0 to n
        invariant forall k :: 0 <= k < outputIds.Length ==> outputIds[k] == if k < i then k else -1
      {
        outputIds[i] := i;
      }
      nOutputs := n;
      assert outputIds[..] == FirstIds(config.nBatch, n);
    }
  }
}
