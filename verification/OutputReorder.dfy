// Lazy reordering of output rows (tools/ref/llama-context.cpp): decode leaves the rows in the
// order the graph wrote them and logs the swaps that would sort them; accessors replay the log.
module OutputReorder {

  datatype Swap = Swap(i0: nat, i1: nat)

  predicate InLog(log: seq<Swap>, n: nat) {
    forall k :: 0 <= k < |log| ==> log[k].i0 < log[k].i1 < n
  }

  function SwapAt<T>(s: seq<T>, a: nat, b: nat): (r: seq<T>)
    requires a < |s| && b < |s|
    ensures |r| == |s|
  {
    s[a := s[b]][b := s[a]]
  }

  function Replay<T>(s: seq<T>, log: seq<Swap>): (r: seq<T>)
    requires InLog(log, |s|)
    ensures |r| == |s|
    decreases |log|
  {
    if log == [] then s else Replay(SwapAt(s, log[0].i0, log[0].i1), log[1..])
  }

  // ---- selection sort ------------------------------------------------------------------------

  predicate MinAt(s: seq<nat>, i: nat, j: nat, end: nat) {
    i <= j < end <= |s| && forall k :: i <= k < end ==> s[j] <= s[k]
  }

  // The index of the least of s[i..end] that the scan settles on, the first of equals.
  function ArgMin(s: seq<nat>, i: nat, end: nat): (j: nat)
    requires i < end <= |s|
    ensures MinAt(s, i, j, end)
  {
    if end == i + 1 then i else
      var j := ArgMin(s, i, end - 1);
      if s[end - 1] < s[j] then end - 1 else j
  }

  predicate Rising(log: seq<Swap>) {
    forall a, b :: 0 <= a < b < |log| ==> log[a].i0 < log[b].i0
  }

  function SortLog(s: seq<nat>, i: nat): (log: seq<Swap>)
    requires i <= |s|
    ensures InLog(log, |s|) && Rising(log) && forall k :: 0 <= k < |log| ==> i <= log[k].i0
    decreases |s| - i
  {
    if |s| - i < 2 then [] else
      var j := ArgMin(s, i, |s|);
      if j == i then SortLog(s, i + 1) else
        var log := SortLog(SwapAt(s, i, j), i + 1);
        assert ([Swap(i, j)] + log)[1..] == log;
        [Swap(i, j)] + log
  }

  predicate Distinct(s: seq<nat>) {
    forall i, j :: 0 <= i < j < |s| ==> s[i] != s[j]
  }

  predicate Ascending(s: seq<nat>) {
    forall i, j :: 0 <= i < j < |s| ==> s[i] < s[j]
  }

  // The first i entries are in order and below the rest.
  predicate SortedTo(s: seq<nat>, i: nat) {
    i <= |s| && forall a, b :: 0 <= a < i && a < b < |s| ==> s[a] < s[b]
  }

  lemma SwapSortsOne(s: seq<nat>, i: nat, j: nat)
    requires SortedTo(s, i) && Distinct(s) && MinAt(s, i, j, |s|)
    ensures SortedTo(SwapAt(s, i, j), i + 1) && Distinct(SwapAt(s, i, j))
  {
  }

  // Selection sort itself, from position i on.
  function SelectFrom(s: seq<nat>, i: nat): (r: seq<nat>)
    requires i <= |s|
    ensures |r| == |s|
    decreases |s| - i
  {
    if |s| - i < 2 then s else SelectFrom(SwapAt(s, i, ArgMin(s, i, |s|)), i + 1)
  }

  lemma {:induction false} SelectAscends(s: seq<nat>, i: nat)
    requires SortedTo(s, i) && Distinct(s)
    ensures Ascending(SelectFrom(s, i))
    decreases |s| - i
  {
    if |s| - i >= 2 {
      SwapSortsOne(s, i, ArgMin(s, i, |s|));
      SelectAscends(SwapAt(s, i, ArgMin(s, i, |s|)), i + 1);
    }
  }

  lemma {:induction false} ReplaySelects(s: seq<nat>, i: nat)
    requires i <= |s|
    ensures Replay(s, SortLog(s, i)) == SelectFrom(s, i)
    decreases |s| - i
  {
    if |s| - i >= 2 {
      var j := ArgMin(s, i, |s|);
      ReplaySelects(SwapAt(s, i, j), i + 1);
      SortLogStep(s, i, j);
    }
  }

  // Replaying the log sorts.
  lemma SortLogSorts(s: seq<nat>)
    requires Distinct(s)
    ensures Ascending(Replay(s, SortLog(s, 0)))
  {
    ReplaySelects(s, 0);
    SelectAscends(s, 0);
  }

  // Swapping the least of the rest into place and sorting on is what the log does.
  lemma SortLogStep(s: seq<nat>, i: nat, j: nat)
    requires i + 2 <= |s| && j == ArgMin(s, i, |s|)
    ensures Replay(s, SortLog(s, i)) == Replay(SwapAt(s, i, j), SortLog(SwapAt(s, i, j), i + 1))
  {
    if j == i {
      assert SwapAt(s, i, i) == s;
    } else {
      SortUnfold(s, i, j);
      ReplayCons(s, Swap(i, j), SortLog(SwapAt(s, i, j), i + 1));
    }
  }

  lemma SortUnfold(s: seq<nat>, i: nat, j: nat)
    requires i + 1 < |s| && i < j == ArgMin(s, i, |s|)
    ensures SortLog(s, i) == [Swap(i, j)] + SortLog(SwapAt(s, i, j), i + 1)
  {
  }

  lemma ReplayCons<T>(s: seq<T>, x: Swap, rest: seq<Swap>)
    requires x.i0 < x.i1 < |s| && InLog(rest, |s|)
    ensures InLog([x] + rest, |s|) && Replay(s, [x] + rest) == Replay(SwapAt(s, x.i0, x.i1), rest)
  {
    assert ([x] + rest)[1..] == rest;
  }

  // ---- a log moves positions, whatever they hold --------------------------------------------------

  function Iota(n: nat): seq<nat> {
    seq(n, i => i)
  }

  lemma InIota(n: nat)
    ensures forall t: nat :: t in Iota(n) <==> t < n
  {
    forall t: nat | t < n ensures t in Iota(n) {
      assert Iota(n)[t] == t;
    }
  }

  function Gather<T>(s: seq<T>, at: seq<nat>): seq<T>
    requires forall i :: 0 <= i < |at| ==> at[i] < |s|
  {
    seq(|at|, i requires 0 <= i < |at| => s[at[i]])
  }

  predicate Positions(at: seq<nat>, n: nat) {
    forall i :: 0 <= i < |at| ==> at[i] < n
  }

  lemma {:induction false} ReplayGathers<T>(s: seq<T>, at: seq<nat>, log: seq<Swap>)
    requires Positions(at, |s|) && InLog(log, |at|)
    ensures Positions(Replay(at, log), |s|)
    ensures Replay(Gather(s, at), log) == Gather(s, Replay(at, log))
    decreases |log|
  {
    if log != [] {
      var a, b := log[0].i0, log[0].i1;
      assert SwapAt(Gather(s, at), a, b) == Gather(s, SwapAt(at, a, b));
      ReplayGathers(s, SwapAt(at, a, b), log[1..]);
    }
  }

  // Where position i of the replayed rows comes from.
  function Origin(n: nat, log: seq<Swap>): (at: seq<nat>)
    requires InLog(log, n)
    ensures |at| == n
  {
    Replay(Iota(n), log)
  }

  lemma ReplayByOrigin<T>(s: seq<T>, log: seq<Swap>)
    requires InLog(log, |s|)
    ensures Positions(Origin(|s|, log), |s|) && Replay(s, log) == Gather(s, Origin(|s|, log))
  {
    assert Gather(s, Iota(|s|)) == s;
    ReplayGathers(s, Iota(|s|), log);
  }

  // Where the entry at position k ends up.
  lemma {:induction false} ReplayMoves<T>(s: seq<T>, log: seq<Swap>, k: nat) returns (i: nat)
    requires InLog(log, |s|) && k < |s|
    ensures i < |s| && Replay(s, log)[i] == s[k]
    decreases |log|
  {
    if log == [] {
      i := k;
    } else {
      var a, b := log[0].i0, log[0].i1;
      i := ReplayMoves(SwapAt(s, a, b), log[1..], if k == a then b else if k == b then a else k);
    }
  }

  lemma OriginOnto(n: nat, log: seq<Swap>, k: nat)
    requires InLog(log, n) && k < n
    ensures exists i :: 0 <= i < n && Origin(n, log)[i] == k
  {
    var i := ReplayMoves(Iota(n), log, k);
    assert Origin(n, log)[i] == k;
  }

  lemma ReplayFrom<T>(s: seq<T>, log: seq<Swap>)
    requires InLog(log, |s|)
    ensures forall i :: 0 <= i < |s| ==> Replay(s, log)[i] in s
  {
    ReplayByOrigin(s, log);
  }

  // ---- the state behind the accessors -----------------------------------------------------------------

  datatype Failure = NegativeOutOfRange | OutOfRange | NotAnOutput | Corrupt
  datatype Result<+T> = Ok(value: T) | Err(error: Failure)

  // ids is output_ids, n is n_outputs, log is output_swaps and rows the rows of one buffer.
  datatype Outputs<T> = Outputs(ids: seq<int>, n: nat, log: seq<Swap>, rows: seq<T>)

  predicate Valid<T>(m: Outputs<T>) {
    && m.n <= |m.rows| && InLog(m.log, |m.rows|) && Rising(m.log)
    && forall t :: 0 <= t < |m.ids| ==> -1 <= m.ids[t] < m.n
  }

  function Reorder<T>(m: Outputs<T>): (r: Outputs<T>)
    requires Valid(m)
    ensures Valid(r) && r.log == []
  {
    m.(rows := Replay(m.rows, m.log), log := [])
  }

  function Resolve<T>(m: Outputs<T>, i: int): Result<int> {
    ResolveRow(m.ids, m.n, i)
  }

  // A negative index counts from the last output row.
  function ResolveRow(ids: seq<int>, n: nat, i: int): Result<int> {
    if i < 0 && n + i < 0 then Err(NegativeOutOfRange)
    else if i >= |ids| then Err(OutOfRange)
    else
      var j := if i < 0 then n + i else ids[i];
      if j < 0 then Err(NotAnOutput)
      else if j >= n then Err(Corrupt)
      else Ok(j)
  }

  function Unset(capacity: nat): seq<int> {
    seq(capacity, _ => -1)
  }

  // ids with out[i] mapped to i for the first k entries.
  function Placed(ids: seq<int>, out: seq<nat>, k: nat): (r: seq<int>)
    requires k <= |out| && Positions(out, |ids|)
    ensures |r| == |ids|
  {
    if k == 0 then ids else Placed(ids, out, k - 1)[out[k - 1] := k - 1]
  }

  predicate InOrder(out: seq<nat>) {
    forall i :: 0 <= i < |out| ==> out[i] == i
  }

  // The log that decode leaves behind.
  function DecodeLog(out: seq<nat>): (log: seq<Swap>)
    ensures InLog(log, |out|) && Rising(log)
  {
    if InOrder(out) || |out| <= 1 then [] else SortLog(out, 0)
  }

  function DecodeIds(capacity: nat, out: seq<nat>): (ids: seq<int>)
    requires Positions(out, capacity)
    ensures |ids| == capacity
  {
    var s := Replay(out, DecodeLog(out));
    assert Positions(s, capacity) by { ReplayPositions(out, DecodeLog(out), capacity); }
    Placed(Unset(capacity), s, |s|)
  }

  lemma ReplayPositions(out: seq<nat>, log: seq<Swap>, n: nat)
    requires Positions(out, n) && InLog(log, |out|)
    ensures Positions(Replay(out, log), n)
  {
    ReplayByOrigin(out, log);
  }

  predicate CanDecode<T>(m: Outputs<T>, out: seq<nat>, written: seq<T>) {
    Positions(out, |m.ids|) && Distinct(out) && |written| == |out| <= |m.rows|
  }

  // The graph wrote row i for the token out[i].
  function Decode<T>(m: Outputs<T>, out: seq<nat>, written: seq<T>): (r: Outputs<T>)
    requires CanDecode(m, out, written)
  {
    Outputs(DecodeIds(|m.ids|, out), |out|, DecodeLog(out), written + m.rows[|out|..])
  }

  // ---- what the mapping holds ------------------------------------------------------------------------

  lemma {:induction false} PlacedIds(ids: seq<int>, out: seq<nat>, k: nat)
    requires k <= |out| && Positions(out, |ids|) && Distinct(out)
    ensures forall i :: 0 <= i < k ==> Placed(ids, out, k)[out[i]] == i
    ensures forall t :: 0 <= t < |ids| && t !in out[..k] ==> Placed(ids, out, k)[t] == ids[t]
  {
    if k > 0 {
      PlacedIds(ids, out, k - 1);
      assert out[..k] == out[..k - 1] + [out[k - 1]];
    }
  }

  lemma DecodedAscending(out: seq<nat>)
    requires Distinct(out)
    ensures Ascending(Replay(out, DecodeLog(out)))
  {
    if !InOrder(out) && |out| > 1 { SortLogSorts(out); }
  }

  // ids maps exactly the output tokens, each to its rank among them.
  lemma DecodedIds(capacity: nat, out: seq<nat>)
    requires Positions(out, capacity) && Distinct(out)
    ensures var s := Replay(out, DecodeLog(out)); Positions(s, capacity) && forall i :: 0 <= i < |s| ==> DecodeIds(capacity, out)[s[i]] == i
    ensures forall t :: 0 <= t < capacity && t !in out ==> DecodeIds(capacity, out)[t] == -1
  {
    var s := Replay(out, DecodeLog(out));
    DecodedAscending(out);
    ReplayPositions(out, DecodeLog(out), capacity);
    PlacedIds(Unset(capacity), s, |s|);
    assert s[..|s|] == s;
    forall t | 0 <= t < capacity && t !in out ensures DecodeIds(capacity, out)[t] == -1 {
      ReplayFrom(out, DecodeLog(out));
    }
  }

  lemma {:induction false} ReplayPrefix<T>(s: seq<T>, tail: seq<T>, log: seq<Swap>)
    requires InLog(log, |s|)
    ensures Replay(s + tail, log) == Replay(s, log) + tail
    decreases |log|
  {
    if log != [] {
      var a, b := log[0].i0, log[0].i1;
      assert SwapAt(s + tail, a, b) == SwapAt(s, a, b) + tail;
      ReplayPrefix(SwapAt(s, a, b), tail, log[1..]);
    }
  }

  // The position among the replayed rows of the row that was written k-th.
  lemma RowMoves<T>(out: seq<nat>, written: seq<T>, k: nat) returns (i: nat)
    requires k < |out| == |written|
    ensures i < |out| && Replay(written, DecodeLog(out))[i] == written[k] && Replay(out, DecodeLog(out))[i] == out[k]
  {
    var log := DecodeLog(out);
    OriginOnto(|out|, log, k);
    i :| 0 <= i < |out| && Origin(|out|, log)[i] == k;
    ReplayByOrigin(written, log);
    ReplayByOrigin(out, log);
  }

  lemma RowOfOutput(capacity: nat, out: seq<nat>, processed: seq<nat>, k: nat) returns (i: nat)
    requires Positions(out, capacity) && Distinct(out) && |out| == |processed| && k < |out|
    ensures i < |out| && Replay(processed, DecodeLog(out))[i] == processed[k] && DecodeIds(capacity, out)[out[k]] == i
  {
    DecodedIds(capacity, out);
    i := RowMoves(out, processed, k);
  }

  function Below(out: seq<nat>, t: nat): set<nat> {
    set v | v in out && v < t
  }

  lemma {:induction false} AscendingRank(s: seq<nat>, j: nat)
    requires Ascending(s) && j < |s|
    ensures |Below(s, s[j])| == j
  {
    if j == 0 {
      assert Below(s, s[0]) == {};
    } else {
      AscendingRank(s, j - 1);
      BelowNext(s, j);
    }
  }

  lemma BelowNext(s: seq<nat>, j: nat)
    requires Ascending(s) && 0 < j < |s|
    ensures Below(s, s[j]) == Below(s, s[j - 1]) + {s[j - 1]}
  {
    forall v | v in Below(s, s[j]) ensures v in Below(s, s[j - 1]) + {s[j - 1]} {
      var k :| 0 <= k < |s| && s[k] == v;
      if k > j { assert s[j] < s[k]; }
    }
  }

  lemma BelowReplayed(out: seq<nat>, log: seq<Swap>, t: nat)
    requires InLog(log, |out|)
    ensures Below(Replay(out, log), t) == Below(out, t)
  {
    ReplayFrom(out, log);
    forall v | v in out ensures v in Replay(out, log) {
      var k :| 0 <= k < |out| && out[k] == v;
      var i := ReplayMoves(out, log, k);
    }
  }

  // An output's row is the number of outputs below it.
  lemma RowIsRank(capacity: nat, out: seq<nat>, k: nat)
    requires Positions(out, capacity) && Distinct(out) && k < |out|
    ensures DecodeIds(capacity, out)[out[k]] == |Below(out, out[k])|
  {
    var i := RowOfOutput(capacity, out, out, k);
    DecodedAscending(out);
    AscendingRank(Replay(out, DecodeLog(out)), i);
    BelowReplayed(out, DecodeLog(out), out[k]);
  }

  function Above(out: seq<nat>, t: nat): set<nat> {
    set v | v in out && v > t
  }

  function Members(s: seq<nat>): set<nat> {
    set v | v in s
  }

  lemma {:induction false} AsMany(s: seq<nat>)
    requires Distinct(s)
    ensures |Members(s)| == |s|
  {
    if s == [] {
      assert Members(s) == {};
    } else {
      var n := |s| - 1;
      AsMany(s[..n]);
      assert Members(s) == Members(s[..n]) + {s[n]};
    }
  }

  lemma AboveAndBelow(out: seq<nat>, k: nat)
    requires Distinct(out) && k < |out|
    ensures |Below(out, out[k])| + 1 + |Above(out, out[k])| == |out|
  {
    var t := out[k];
    AsMany(out);
    var upTo := Below(out, t) + {t};
    assert Members(out) == upTo + Above(out, t);
    assert upTo !! Above(out, t);
  }

  // Counted from the end in the order of the tokens, the token of output i has index t: the
  // last is -1.
  predicate FromEnd(out: seq<nat>, t: int, i: nat) {
    i < |out| && t == -1 - |Above(out, out[i])|
  }

  lemma EachFromEnd(out: seq<nat>, t: int)
    requires Distinct(out) && -|out| <= t < 0
    ensures exists i: nat :: FromEnd(out, t, i)
  {
    var s, log := Replay(out, DecodeLog(out)), DecodeLog(out);
    DecodedAscending(out);
    AscendingRank(s, |out| + t);
    ReplayByOrigin(out, log);
    var i := Origin(|out|, log)[|out| + t];
    BelowReplayed(out, log, out[i]);
    AboveAndBelow(out, i);
    assert FromEnd(out, t, i);
  }

  lemma BackIsForth(capacity: nat, out: seq<nat>, t: int, i: nat)
    requires Positions(out, capacity) && Distinct(out) && FromEnd(out, t, i)
    ensures ResolveRow(DecodeIds(capacity, out), |out|, t) == ResolveRow(DecodeIds(capacity, out), |out|, out[i])
  {
    RowIsRank(capacity, out, i);
    AboveAndBelow(out, i);
  }

  lemma IotaFromEnd(n: nat, t: int, i: nat)
    ensures FromEnd(Iota(n), t, i) <==> i < n && t == i - n
  {
    if i < n {
      AscendingRank(Iota(n), i);
      AboveAndBelow(Iota(n), i);
    }
  }

  // ---- reading rows ----------------------------------------------------------------------------------

  // Token t reads the given row once the log has been replayed.
  ghost predicate Reads<T>(m: Outputs<T>, t: int, row: T)
    requires Valid(m)
  {
    var r := Reorder(m);
    Resolve(r, t).Ok? && r.rows[Resolve(r, t).value] == row
  }

  // Every output token reads the row written for it, and no other token reads any; counting
  // from the end, -1 names the row of the last output token, and so on to the first.
  ghost predicate Faithful<T>(m: Outputs<T>, out: seq<nat>, written: seq<T>) {
    && Valid(m) && |out| == |written| && m.n == |out|
    && (forall k :: 0 <= k < |out| ==> Reads(m, out[k], written[k]))
    && (forall t: nat :: t !in out ==> Resolve(m, t).Err?)
    && (forall t: int, i: nat :: FromEnd(out, t, i) ==> Reads(m, t, written[i]))
    && (forall t: int :: t < -|out| ==> Resolve(m, t).Err?)
  }

  lemma DecodeReads<T>(m: Outputs<T>, out: seq<nat>, written: seq<T>, k: nat)
    requires CanDecode(m, out, written) && Valid(Decode(m, out, written)) && k < |out|
    ensures Reads(Decode(m, out, written), out[k], written[k])
  {
    DecodedIds(|m.ids|, out);
    ReplayPrefix(written, m.rows[|out|..], DecodeLog(out));
    var i := RowMoves(out, written, k);
  }

  lemma DecodeValid<T>(m: Outputs<T>, out: seq<nat>, written: seq<T>)
    requires CanDecode(m, out, written)
    ensures Valid(Decode(m, out, written))
  {
    var d := Decode(m, out, written);
    DecodedIds(|m.ids|, out);
    forall t | 0 <= t < |d.ids| ensures -1 <= d.ids[t] < d.n {
      if t in out {
        var k :| 0 <= k < |out| && out[k] == t;
        var i := RowMoves(out, out, k);
      }
    }
  }

  // Whatever order the graph wrote the outputs in.
  lemma DecodeFaithful<T>(m: Outputs<T>, out: seq<nat>, written: seq<T>)
    requires CanDecode(m, out, written)
    ensures Faithful(Decode(m, out, written), out, written)
  {
    DecodeValid(m, out, written);
    forall k | 0 <= k < |out| ensures Reads(Decode(m, out, written), out[k], written[k]) {
      DecodeReads(m, out, written, k);
    }
    forall t: int, i: nat | FromEnd(out, t, i) ensures Reads(Decode(m, out, written), t, written[i]) {
      BackIsForth(|m.ids|, out, t, i);
      DecodeReads(m, out, written, i);
    }
    DecodedIds(|m.ids|, out);
  }

  // The replayed rows are in the order of their tokens.
  lemma ReorderedRowsAscend<T>(m: Outputs<T>, out: seq<nat>, written: seq<T>)
    requires CanDecode(m, out, written) && Valid(Decode(m, out, written))
    ensures exists at: seq<nat> :: |at| == |out| && Positions(at, |out|) && Ascending(Gather(out, at))
              && Gather(written, at) == Reorder(Decode(m, out, written)).rows[..|out|]
  {
    var log := DecodeLog(out);
    var at := Origin(|out|, log);
    ReplayByOrigin(out, log);
    ReplayByOrigin(written, log);
    DecodedAscending(out);
    ReplayPrefix(written, m.rows[|out|..], log);
  }

  // ---- rows that are stored by token, not by output ------------------------------------------------------------

  // Row i of the replayed rows came from a row k whose output belongs at row i.
  lemma RowsByOutput(capacity: nat, out: seq<nat>, processed: seq<nat>, i: nat) returns (k: nat)
    requires Positions(out, capacity) && Distinct(out) && |out| == |processed| && i < |out|
    ensures k < |out| && Replay(processed, DecodeLog(out))[i] == processed[k] && DecodeIds(capacity, out)[out[k]] == i
  {
    var log := DecodeLog(out);
    ReplayByOrigin(processed, log);
    ReplayByOrigin(out, log);
    DecodedIds(capacity, out);
    k := Origin(|out|, log)[i];
    assert Replay(out, log)[i] == out[k];
  }

  predicate InPlace(rows: seq<nat>) {
    forall i :: 0 <= i < |rows| ==> rows[i] == i
  }

  // The token processed i-th is the number of outputs below the i-th output.
  predicate Matches(out: seq<nat>, head: seq<nat>)
    requires |head| == |out|
  {
    forall i :: 0 <= i < |head| ==> head[i] == |Below(out, out[i])|
  }

  lemma InPlaceMatches(capacity: nat, out: seq<nat>, head: seq<nat>)
    requires Positions(out, capacity) && Distinct(out) && |out| == |head|
    requires InPlace(Replay(head, DecodeLog(out)))
    ensures Matches(out, head)
  {
    forall k | 0 <= k < |head| ensures head[k] == |Below(out, out[k])| {
      var i := RowOfOutput(capacity, out, head, k);
      RowIsRank(capacity, out, k);
    }
  }

  lemma MatchesInPlace(capacity: nat, out: seq<nat>, head: seq<nat>)
    requires Positions(out, capacity) && Distinct(out) && |out| == |head| && Matches(out, head)
    ensures InPlace(Replay(head, DecodeLog(out)))
  {
    forall i | 0 <= i < |head| ensures Replay(head, DecodeLog(out))[i] == i {
      var k := RowsByOutput(capacity, out, head, i);
      RowIsRank(capacity, out, k);
    }
  }

  lemma SplitInPlace(head: seq<nat>, tail: seq<nat>)
    ensures InPlace(head + tail) <==> InPlace(head) && forall i :: 0 <= i < |tail| ==> tail[i] == |head| + i
  {
    if InPlace(head + tail) {
      assert forall i :: 0 <= i < |head| ==> head[i] == (head + tail)[i];
      assert forall i :: 0 <= i < |tail| ==> tail[i] == (head + tail)[|head| + i];
    }
  }

  // Unmasked nextn rows and layer inputs are written one per processed token, yet the replay
  // moves them as if they were output rows.  head + tail are the tokens in the order processed.
  // The rows end in token order exactly when each token processed among the first is the rank of
  // the output written in that place, and the other tokens were processed in order.
  lemma DenseRowsExactly(capacity: nat, out: seq<nat>, head: seq<nat>, tail: seq<nat>)
    requires Positions(out, capacity) && Distinct(out) && |out| == |head|
    ensures InPlace(Replay(head + tail, DecodeLog(out))) <==> Matches(out, head) && forall i :: 0 <= i < |tail| ==> tail[i] == |out| + i
  {
    ReplayPrefix(head, tail, DecodeLog(out));
    SplitInPlace(Replay(head, DecodeLog(out)), tail);
    HeadExactly(capacity, out, head);
  }

  lemma HeadExactly(capacity: nat, out: seq<nat>, head: seq<nat>)
    requires Positions(out, capacity) && Distinct(out) && |out| == |head|
    ensures InPlace(Replay(head, DecodeLog(out))) <==> Matches(out, head)
  {
    if InPlace(Replay(head, DecodeLog(out))) { InPlaceMatches(capacity, out, head); }
    if Matches(out, head) { MatchesInPlace(capacity, out, head); }
  }

  // Tokens 0, 2 and 1 are processed in this order and the last two are outputs: after the replay
  // the row of token 2 comes first.
  lemma DenseRowsFail(a: nat, b: nat)
    requires a == 2 && b == 1
    ensures Replay([0, a, b], DecodeLog([a, b])) == [a, 0, b] && !InPlace(Replay([0, a, b], DecodeLog([a, b])))
  {
    assert !InOrder([a, b]) by { assert [a, b][0] != 0; }
    assert ArgMin([a, b], 0, 1) == 0;
    assert SortLog(SwapAt([a, b], 0, 1), 1) == [];
    assert DecodeLog([a, b]) == [Swap(0, 1)];
    ReplayCons([0, a, b], Swap(0, 1), []);
    assert [Swap(0, 1)] + [] == [Swap(0, 1)];
    assert [a, 0, b][0] == a;
  }

  // ---- for the loops that update arrays ------------------------------------------------------------------------

  lemma {:induction false} ReplaySnoc<T>(s: seq<T>, log: seq<Swap>, x: Swap)
    requires InLog(log, |s|) && x.i0 < x.i1 < |s|
    ensures Replay(s, log + [x]) == SwapAt(Replay(s, log), x.i0, x.i1)
    decreases |log|
  {
    if log != [] {
      assert (log + [x])[1..] == log[1..] + [x];
      ReplaySnoc(SwapAt(s, log[0].i0, log[0].i1), log[1..], x);
    }
  }
}
