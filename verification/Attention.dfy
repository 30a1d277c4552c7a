// The single-pass attention kernel (python/xecuda/kernels.py, gqa_attention) and the two-pass
// reference (src/xecuda_xmx.cpp, xeCudaFlashAttentionV2), over flat arrays.
module Attention {
  import opened Division
  import opened Options
  import opened Values
  import opened Softmax
  import opened RangeSums

  // ---- rows of flat arrays ------------------------------------------------------------------

  // The inner product of the n entries at a in u with those at b in v.
  function DotAt(u: Vec, a: nat, v: Vec, b: nat, n: nat): real {
    if n == 0 then 0.0 else DotAt(u, a, v, b, n - 1) + At(u, a + (n - 1)) * At(v, b + (n - 1))
  }

  // Scores of the query row at q against the count key rows of the given width from k on.
  function Scores(query: Vec, q: nat, key: Vec, k: nat, width: nat, count: nat, scale: real): (s: Vec)
    ensures |s| == count
  {
    seq(count, (j: nat) => DotAt(query, q, key, k + j * width, width) * scale)
  }

  lemma ScoreAt(query: Vec, q: nat, key: Vec, k: nat, width: nat, count: nat, scale: real, n: nat)
    requires n < count
    ensures Scores(query, q, key, k, width, count, scale)[n] == DotAt(query, q, key, k + n * width, width) * scale
  {
  }

  // Entry d of each of the count rows from k on.
  function Column(v: Vec, k: nat, width: nat, count: nat, d: nat): (c: Vec)
    ensures |c| == count
  {
    seq(count, (j: nat) => At(v, k + j * width + d))
  }

  // Row j of block b, where blocks hold count rows.
  lemma BlockRowFits(b: nat, blocks: nat, j: nat, count: nat, w: nat)
    requires b < blocks && j < count
    ensures b * count * w + j * w + w <= blocks * count * w
  {
    NextMultiple(b, blocks, count);
    NextMultiple(b * count + j, blocks * count, w);
    assert (b * count + j) * w == b * count * w + j * w;
  }

  lemma RowsApart(r: nat, t: nat, w: nat, d: nat, e: nat)
    requires r != t && d < w && e < w
    ensures r * w + d != t * w + e
  {
    if r < t { NextMultiple(r, t, w); } else { NextMultiple(t, r, w); }
  }

  method DotRow(u: seq<real>, a: nat, v: seq<real>, b: nat, n: nat) returns (r: real)
    requires a + n <= |u| && b + n <= |v|
    ensures r == DotAt(u, a, v, b, n)
  {
    r := 0.0;
    for d := 0 to n
      invariant r == DotAt(u, a, v, b, d)
    {
      r := r + u[a + d] * v[b + d];
    }
  }

  // What a loop over one row may change.
  twostate predicate OnlyRow(a: array<real>, base: nat, n: nat)
    reads a
  {
    forall i :: 0 <= i < a.Length && !(base <= i < base + n) ==> a[i] == old(a[i])
  }

  method ZeroRow(out: array<real>, base: nat, n: nat)
    requires base + n <= out.Length
    modifies out
    ensures forall d :: base <= d < base + n ==> out[d] == 0.0
    ensures OnlyRow(out, base, n)
  {
    for d := 0 to n
      invariant forall i :: base <= i < base + d ==> out[i] == 0.0
      invariant OnlyRow(out, base, n)
    {
      out[base + d] := 0.0;
    }
  }

  method UpdateRow(out: array<real>, base: nat, n: nat, rescale: real, w: real, v: seq<real>, k: nat)
    requires base + n <= out.Length && k + n <= |v|
    modifies out
    ensures forall d :: base <= d < base + n ==> out[d] == old(out[d]) * rescale + w * v[k + (d - base)]
    ensures OnlyRow(out, base, n)
  {
    for d := 0 to n
      invariant forall i :: base <= i < base + d ==> out[i] == old(out[i]) * rescale + w * v[k + (i - base)]
      invariant forall i :: base + d <= i < base + n ==> out[i] == old(out[i])
      invariant OnlyRow(out, base, n)
    {
      ghost var i := base + d;
      assert out[i] == old(out[i]) && k + d == k + (i - base);
      out[base + d] := out[base + d] * rescale + w * v[k + d];
      assert out[i] == old(out[i]) * rescale + w * v[k + (i - base)];
    }
  }

  method ScaleRow(out: array<real>, base: nat, n: nat, inv: real)
    requires base + n <= out.Length
    modifies out
    ensures forall d :: base <= d < base + n ==> out[d] == old(out[d]) * inv
    ensures OnlyRow(out, base, n)
  {
    for d := 0 to n
      invariant forall i :: base <= i < base + d ==> out[i] == old(out[i]) * inv
      invariant forall i :: base + d <= i < base + n ==> out[i] == old(out[i])
      invariant OnlyRow(out, base, n)
    {
      out[base + d] := out[base + d] * inv;
    }
  }

  // ---- one work-item ---------------------------------------------------------------------------

  // The row of out holds the mixed values of the first n key rows.
  ghost predicate Holding(out: seq<real>, base: nat, width: nat, exp: Exp, s: Vec, v: Vec, k: nat, m: real, n: nat)
    requires base + width <= |out|
  {
    forall i :: base <= i < base + width ==> out[i] == Mixed(exp, s, Column(v, k, width, |s|, i - base), m, n)
  }

  ghost predicate Averaged(out: seq<real>, base: nat, width: nat, exp: Exp, s: Vec, v: Vec, k: nat)
    requires base + width <= |out|
  {
    forall i :: base <= i < base + width ==> out[i] == Attend(exp, s, Column(v, k, width, |s|, i - base))
  }

  lemma StepHolds(now: seq<real>, next: seq<real>, base: nat, width: nat, exp: Exp, s: Vec, v: Vec, k: nat, m: real, m': real, n: nat)
    requires ExpLaws(exp) && base + width <= |now| == |next| && n < |s| && k + n * width + width <= |v|
    requires Holding(now, base, width, exp, s, v, k, m, n)
    requires forall i :: base <= i < base + width ==> next[i] == now[i] * exp(m - m') + exp(s[n] - m') * v[k + n * width + (i - base)]
    ensures Holding(next, base, width, exp, s, v, k, m', n + 1)
  {
    forall i | base <= i < base + width ensures next[i] == Mixed(exp, s, Column(v, k, width, |s|, i - base), m', n + 1) {
      var c := Column(v, k, width, |s|, i - base);
      OnlineStep(exp, s, c, m, m', n);
      assert At(c, n) == v[k + n * width + (i - base)];
    }
  }

  lemma EndHolds(now: seq<real>, next: seq<real>, base: nat, width: nat, exp: Exp, s: Vec, v: Vec, k: nat, m: real, inv: real)
    requires ExpLaws(exp) && base + width <= |now| == |next| && Holding(now, base, width, exp, s, v, k, m, |s|)
    requires inv == if Mass(exp, s, m, |s|) > 0.0 then 1.0 / Mass(exp, s, m, |s|) else 0.0
    requires forall i :: base <= i < base + width ==> next[i] == now[i] * inv
    ensures Averaged(next, base, width, exp, s, v, k)
  {
    forall i | base <= i < base + width ensures next[i] == Attend(exp, s, Column(v, k, width, |s|, i - base)) {
      var c := Column(v, k, width, |s|, i - base);
      OnlineEnd(exp, s, c, m, inv);
      assert next[i] == now[i] * inv;
    }
  }

  // One round of the loop over key positions, on the scores s of this row.
  method OnlineRound(exp: Exp, key: seq<real>, value: seq<real>, out: array<real>, ghost s: Vec, score: real,
                     base: nat, k: nat, width: nat, n: nat, maxScore: real, sumExp: real) returns (newMax: real, newSum: real)
    requires ExpLaws(exp) && base + width <= out.Length && n < |s| && k + n * width + width <= |value|
    requires score == s[n] && sumExp == Mass(exp, s, maxScore, n)
    requires Holding(out[..], base, width, exp, s, value, k, maxScore, n)
    modifies out
    ensures newMax == if maxScore > score then maxScore else score
    ensures newSum == Mass(exp, s, newMax, n + 1)
    ensures Holding(out[..], base, width, exp, s, value, k, newMax, n + 1)
    ensures OnlyRow(out, base, width)
  {
    newMax := if maxScore > score then maxScore else score;
    var rescale, w := exp(maxScore - newMax), exp(score - newMax);
    newSum := sumExp * rescale + w;
    ghost var before := out[..];
    UpdateRow(out, base, width, rescale, w, value, k + n * width);
    OnlineStep(exp, s, [], maxScore, newMax, n);
    StepHolds(before, out[..], base, width, exp, s, value, k, maxScore, newMax, n);
  }

  lemma NothingHeld(out: seq<real>, base: nat, width: nat, exp: Exp, s: Vec, v: Vec, k: nat, m: real)
    requires base + width <= |out| && forall i :: base <= i < base + width ==> out[i] == 0.0
    ensures Holding(out, base, width, exp, s, v, k, m, 0)
  {
  }

  // The whole loop, from any starting maximum.
  method OnlineRow(exp: Exp, query: seq<real>, key: seq<real>, value: seq<real>, out: array<real>,
                   q: nat, k: nat, width: nat, count: nat, scale: real, start: real)
    requires ExpLaws(exp) && q + width <= |query| && q + width <= out.Length
    requires forall j :: 0 <= j < count ==> k + j * width + width <= |key| && k + j * width + width <= |value|
    modifies out
    ensures Averaged(out[..], q, width, exp, Scores(query, q, key, k, width, count, scale), value, k)
    ensures OnlyRow(out, q, width)
  {
    hide Averaged, Scores, Holding;
    ghost var s := Scores(query, q, key, k, width, count, scale);
    var maxScore, sumExp := start, 0.0;
    ZeroRow(out, q, width);
    NothingHeld(out[..], q, width, exp, s, value, k, start);
    for n := 0 to count
      invariant OnlyRow(out, q, width) && sumExp == Mass(exp, s, maxScore, n)
      invariant Holding(out[..], q, width, exp, s, value, k, maxScore, n)
    {
      ScoreAt(query, q, key, k, width, count, scale, n);
      var score := DotRow(query, q, key, k + n * width, width);
      maxScore, sumExp := OnlineRound(exp, key, value, out, s, score * scale, q, k, width, n, maxScore, sumExp);
    }
    var invSum := if sumExp > 0.0 then 1.0 / sumExp else 0.0;
    ghost var before := out[..];
    ScaleRow(out, q, width, invSum);
    EndHolds(before, out[..], q, width, exp, s, value, k, maxScore, invSum);
  }

  // ---- the launch -----------------------------------------------------------------------------------

  datatype Shape = Shape(heads: nat, kvHeads: nat, width: nat, seqQ: nat, seqKv: nat)

  predicate ShapeOk(d: Shape) {
    d.kvHeads > 0 && d.heads > 0 && d.heads % d.kvHeads == 0
  }

  function Items(d: Shape): nat {
    d.heads * d.seqQ
  }

  // The first key row of the head that item idx attends to.
  function KvBase(d: Shape, idx: nat): nat
    requires ShapeOk(d) && idx < Items(d)
  {
    GroupPositive(d);
    RowsPositive(d, idx);
    HeadStart(idx / d.seqQ, d.heads / d.kvHeads, d.seqKv, d.width)
  }

  lemma GroupPositive(d: Shape)
    requires ShapeOk(d)
    ensures d.heads / d.kvHeads > 0 && d.heads / d.kvHeads * d.kvHeads == d.heads
  {
  }

  lemma RowsPositive(d: Shape, idx: nat)
    requires idx < Items(d)
    ensures d.seqQ > 0
  {
  }

  lemma HeadOf(d: Shape, idx: nat)
    requires ShapeOk(d) && idx < Items(d)
    ensures d.seqQ > 0 && idx / d.seqQ < d.heads
    ensures RowStart(idx / d.seqQ, d.seqQ, idx % d.seqQ, d.width) == idx * d.width
  {
    RowsPositive(d, idx);
    var h, q := idx / d.seqQ, idx % d.seqQ;
    assert idx == h * d.seqQ + q;
    if h >= d.heads {
      Widen(d.heads, h, d.seqQ);
    }
    assert (h * d.seqQ + q) * d.width == h * d.seqQ * d.width + q * d.width;
  }

  lemma GroupOf(h: nat, heads: nat, kvHeads: nat, group: nat)
    requires h < heads && group > 0 && group * kvHeads == heads
    ensures h / group < kvHeads
  {
    if h / group >= kvHeads {
      Widen(kvHeads, h / group, group);
    }
  }

  ghost predicate SizesOk(d: Shape, query: Vec, key: Vec, value: Vec, outSize: nat) {
    && ShapeOk(d) && |query| == outSize == Items(d) * d.width
    && |key| == |value| == d.kvHeads * d.seqKv * d.width
  }

  // Item idx has written its row: the softmax average over the keys of its head.
  ghost predicate ItemDone(exp: Exp, d: Shape, query: Vec, key: Vec, value: Vec, scale: real, out: Vec, idx: nat)
    requires ShapeOk(d) && idx < Items(d)
  {
    && idx * d.width + d.width <= |out|
    && Averaged(out, idx * d.width, d.width, exp,
                Scores(query, idx * d.width, key, KvBase(d, idx), d.width, d.seqKv, scale), value, KvBase(d, idx))
  }

  lemma ItemFits(d: Shape, query: Vec, key: Vec, value: Vec, outSize: nat, idx: nat)
    requires SizesOk(d, query, key, value, outSize) && idx < Items(d)
    ensures idx * d.width + d.width <= outSize
    ensures forall j: nat :: j < d.seqKv ==> KvBase(d, idx) + j * d.width + d.width <= |key|
  {
    NextMultiple(idx, Items(d), d.width);
    HeadOf(d, idx);
    GroupPositive(d);
    GroupOf(idx / d.seqQ, d.heads, d.kvHeads, d.heads / d.kvHeads);
    forall j: nat | j < d.seqKv ensures KvBase(d, idx) + j * d.width + d.width <= |key| {
      BlockRowFits(idx / d.seqQ / (d.heads / d.kvHeads), d.kvHeads, j, d.seqKv, d.width);
    }
  }

  // The kernel body for one work-item; items past the end return at once.
  method GqaItem(exp: Exp, query: seq<real>, key: seq<real>, value: seq<real>, out: array<real>, d: Shape, scale: real, idx: nat)
    requires ExpLaws(exp) && SizesOk(d, query, key, value, out.Length)
    modifies out
    ensures idx < Items(d) ==> ItemDone(exp, d, query, key, value, scale, out[..], idx)
    ensures idx < Items(d) ==> ItemMeans(exp, d, query, key, value, scale, out[..], idx)
    ensures idx < Items(d) ==> OnlyRow(out, idx * d.width, d.width)
    ensures idx >= Items(d) ==> out[..] == old(out[..])
  {
    if idx >= d.heads * d.seqQ {
      return;
    }
    var qBase, kvBase := Bases(d, idx);
    GqaRow(exp, query, key, value, out, d, scale, idx, qBase, kvBase);
    DoneMeans(exp, d, query, key, value, scale, out[..], idx);
  }

  // The index arithmetic at the head of the kernel.
  method Bases(d: Shape, idx: nat) returns (qBase: nat, kvBase: nat)
    requires ShapeOk(d) && idx < Items(d)
    ensures qBase == idx * d.width && kvBase == KvBase(d, idx)
  {
    HeadOf(d, idx);
    GroupPositive(d);
    var qPos := idx % d.seqQ;
    var h := idx / d.seqQ;
    var kvGroup := d.heads / d.kvHeads;
    qBase := RowStart(h, d.seqQ, qPos, d.width);
    kvBase := HeadStart(h, kvGroup, d.seqKv, d.width);
  }

  function RowStart(h: nat, rows: nat, q: nat, width: nat): nat {
    h * rows * width + q * width
  }

  function HeadStart(h: nat, group: nat, rows: nat, width: nat): nat
    requires group > 0
  {
    h / group * rows * width
  }

  method GqaRow(exp: Exp, query: seq<real>, key: seq<real>, value: seq<real>, out: array<real>, d: Shape, scale: real,
                ghost idx: nat, qBase: nat, kvBase: nat)
    requires ExpLaws(exp) && SizesOk(d, query, key, value, out.Length) && idx < Items(d)
    requires qBase == idx * d.width && kvBase == KvBase(d, idx)
    modifies out
    ensures ItemDone(exp, d, query, key, value, scale, out[..], idx) && OnlyRow(out, qBase, d.width)
  {
    ItemFits(d, query, key, value, out.Length, idx);
    OnlineRow(exp, query, key, value, out, qBase, kvBase, d.width, d.seqKv, scale, -1000000000000000000000000000000.0);
  }

  lemma ItemKept(exp: Exp, d: Shape, query: Vec, key: Vec, value: Vec, scale: real, was: Vec, now: Vec, idx: nat, other: nat)
    requires ShapeOk(d) && idx < Items(d) && other < Items(d) && idx != other && |was| == |now|
    requires ItemDone(exp, d, query, key, value, scale, was, other)
    requires forall i :: 0 <= i < |was| && !(idx * d.width <= i < idx * d.width + d.width) ==> now[i] == was[i]
    ensures ItemDone(exp, d, query, key, value, scale, now, other)
  {
    forall i | other * d.width <= i < other * d.width + d.width ensures now[i] == was[i] {
      if idx * d.width <= i < idx * d.width + d.width {
        RowsApart(idx, other, d.width, i - idx * d.width, i - other * d.width);
      }
    }
  }

  // ---- what a row means --------------------------------------------------------------------------------

  // The scaled inner product of the query row at q and the key row at k.
  function Score(query: Vec, key: Vec, scale: real, width: nat, q: nat, k: nat): real {
    Sum((e: nat) => At(query, q + e) * At(key, k + e), 0, width) * scale
  }

  // Entry e of the row at q is the average of the entries e of the count value rows from k on,
  // each weighted by the exponential of its score; without values it is zero.
  ghost predicate AveragesKeys(exp: Exp, query: Vec, key: Vec, value: Vec, scale: real, width: nat, count: nat, q: nat, k: nat, e: nat, x: real) {
    && x * Sum((j: nat) => exp(Score(query, key, scale, width, q, k + j * width)), 0, count)
         == Sum((j: nat) => exp(Score(query, key, scale, width, q, k + j * width)) * At(value, k + j * width + e), 0, count)
    && (count == 0 ==> x == 0.0)
  }

  // Item idx is position pos of query head kv * group + i; the heads of one group share the
  // keys of head kv.
  predicate IsItem(d: Shape, idx: nat, kv: nat, group: nat, i: nat, pos: nat) {
    group * d.kvHeads == d.heads && kv < d.kvHeads && i < group && pos < d.seqQ && idx == (kv * group + i) * d.seqQ + pos
  }

  // Every entry of the row at q averages over the count key rows from k on.
  ghost predicate RowMeans(exp: Exp, d: Shape, query: Vec, key: Vec, value: Vec, scale: real, out: Vec, q: nat, k: nat) {
    forall e: nat :: e < d.width ==> EntryMeans(exp, d, query, key, value, scale, out, q, k, e)
  }

  ghost predicate EntryMeans(exp: Exp, d: Shape, query: Vec, key: Vec, value: Vec, scale: real, out: Vec, q: nat, k: nat, e: nat) {
    AveragesKeys(exp, query, key, value, scale, d.width, d.seqKv, q, k, e, At(out, q + e))
  }

  // The row of item idx averages over the keys of its group's head.
  ghost predicate ItemMeans(exp: Exp, d: Shape, query: Vec, key: Vec, value: Vec, scale: real, out: Vec, idx: nat) {
    forall kv: nat, group: nat, i: nat, pos: nat :: IsItem(d, idx, kv, group, i, pos) ==>
      RowMeans(exp, d, query, key, value, scale, out, idx * d.width, kv * d.seqKv * d.width)
  }

  lemma {:induction false} DotIsSum(u: Vec, a: nat, v: Vec, b: nat, n: nat, f: nat -> real)
    requires forall e: nat :: f(e) == At(u, a + e) * At(v, b + e)
    ensures DotAt(u, a, v, b, n) == Sum(f, 0, n)
  {
    if n > 0 { DotIsSum(u, a, v, b, n - 1, f); }
  }

  lemma ScoreIs(query: Vec, q: nat, key: Vec, k: nat, width: nat, count: nat, scale: real, j: nat)
    requires j < count
    ensures Scores(query, q, key, k, width, count, scale)[j] == Score(query, key, scale, width, q, k + j * width)
  {
    DotIsSum(query, q, key, k + j * width, width, (e: nat) => At(query, q + e) * At(key, k + j * width + e));
    ScoreAt(query, q, key, k, width, count, scale, j);
  }

  lemma {:induction false} MassIsSum(exp: Exp, s: Vec, n: nat, f: nat -> real)
    requires n <= |s| && forall j: nat :: j < |s| ==> f(j) == exp(s[j])
    ensures Mass(exp, s, 0.0, n) == Sum(f, 0, n)
  {
    if n > 0 { MassIsSum(exp, s, n - 1, f); }
  }

  lemma {:induction false} MixedIsSum(exp: Exp, s: Vec, v: Vec, n: nat, f: nat -> real)
    requires n <= |s| && forall j: nat :: j < |s| ==> f(j) == exp(s[j]) * At(v, j)
    ensures Mixed(exp, s, v, 0.0, n) == Sum(f, 0, n)
  {
    if n > 0 { MixedIsSum(exp, s, v, n - 1, f); }
  }

  lemma WeightSum(exp: Exp, query: Vec, key: Vec, scale: real, width: nat, count: nat, q: nat, k: nat)
    ensures Mass(exp, Scores(query, q, key, k, width, count, scale), 0.0, count)
         == Sum((j: nat) => exp(Score(query, key, scale, width, q, k + j * width)), 0, count)
  {
    hide Scores, Score;
    var s := Scores(query, q, key, k, width, count, scale);
    var weight := (j: nat) => exp(Score(query, key, scale, width, q, k + j * width));
    forall j: nat | j < count ensures weight(j) == exp(s[j]) {
      ScoreIs(query, q, key, k, width, count, scale, j);
    }
    MassIsSum(exp, s, count, weight);
  }

  lemma WeightedSum(exp: Exp, query: Vec, key: Vec, value: Vec, scale: real, width: nat, count: nat, q: nat, k: nat, e: nat)
    ensures Mixed(exp, Scores(query, q, key, k, width, count, scale), Column(value, k, width, count, e), 0.0, count)
         == Sum((j: nat) => exp(Score(query, key, scale, width, q, k + j * width)) * At(value, k + j * width + e), 0, count)
  {
    hide Scores, Score;
    var s, v := Scores(query, q, key, k, width, count, scale), Column(value, k, width, count, e);
    var weighted := (j: nat) => exp(Score(query, key, scale, width, q, k + j * width)) * At(value, k + j * width + e);
    forall j: nat | j < count ensures weighted(j) == exp(s[j]) * At(v, j) {
      ScoreIs(query, q, key, k, width, count, scale, j);
      assert At(v, j) == At(value, k + j * width + e);
    }
    MixedIsSum(exp, s, v, count, weighted);
  }

  lemma AttendAverages(exp: Exp, query: Vec, key: Vec, value: Vec, scale: real, width: nat, count: nat, q: nat, k: nat, e: nat, x: real)
    requires ExpLaws(exp) && x == Attend(exp, Scores(query, q, key, k, width, count, scale), Column(value, k, width, count, e))
    ensures AveragesKeys(exp, query, key, value, scale, width, count, q, k, e, x)
  {
    hide Scores, Column, Score, ExpLaws;
    var s, v := Scores(query, q, key, k, width, count, scale), Column(value, k, width, count, e);
    ScoresLength(query, q, key, k, width, count, scale);
    WeightSum(exp, query, key, scale, width, count, q, k);
    WeightedSum(exp, query, key, value, scale, width, count, q, k, e);
    MassPositive(exp, s, 0.0, count);
    QuotientTimesBack(Mixed(exp, s, v, 0.0, count), Mass(exp, s, 0.0, count));
  }

  lemma ScoresLength(query: Vec, q: nat, key: Vec, k: nat, width: nat, count: nat, scale: real)
    ensures |Scores(query, q, key, k, width, count, scale)| == count
  {
  }

  lemma QuotientTimesBack(a: real, b: real)
    ensures b > 0.0 ==> Quotient(a, b) * b == a
  {
  }

  lemma ItemIsOne(d: Shape, idx: nat, kv: nat, group: nat, i: nat, pos: nat)
    requires IsItem(d, idx, kv, group, i, pos)
    ensures idx < Items(d)
  {
    NextMultiple(kv, d.kvHeads, group);
    assert d.kvHeads * group == d.heads;
    NextMultiple(kv * group + i, d.heads, d.seqQ);
  }

  lemma GroupKeys(d: Shape, idx: nat, kv: nat, group: nat, i: nat, pos: nat)
    requires ShapeOk(d) && idx < Items(d) && IsItem(d, idx, kv, group, i, pos)
    ensures KvBase(d, idx) == kv * d.seqKv * d.width
  {
    HeadIndex(kv * group + i, d.seqQ, pos);
    HeadIndex(kv, group, i);
    DivMod(group, 0, d.kvHeads);
  }

  lemma RowAverages(exp: Exp, d: Shape, query: Vec, key: Vec, value: Vec, scale: real, out: Vec, q: nat, k: nat)
    requires ExpLaws(exp) && q + d.width <= |out|
    requires Averaged(out, q, d.width, exp, Scores(query, q, key, k, d.width, d.seqKv, scale), value, k)
    ensures RowMeans(exp, d, query, key, value, scale, out, q, k)
  {
    forall e: nat | e < d.width ensures EntryMeans(exp, d, query, key, value, scale, out, q, k, e) {
      EntryAverages(out, q, d.width, exp, Scores(query, q, key, k, d.width, d.seqKv, scale), value, k, e);
      AttendAverages(exp, query, key, value, scale, d.width, d.seqKv, q, k, e, At(out, q + e));
    }
  }

  lemma EntryAverages(out: Vec, q: nat, width: nat, exp: Exp, s: Vec, value: Vec, k: nat, e: nat)
    requires e < width && q + width <= |out| && Averaged(out, q, width, exp, s, value, k)
    ensures At(out, q + e) == Attend(exp, s, Column(value, k, width, |s|, e))
  {
  }

  lemma DoneMeans(exp: Exp, d: Shape, query: Vec, key: Vec, value: Vec, scale: real, out: Vec, idx: nat)
    requires ExpLaws(exp) && ShapeOk(d) && idx < Items(d) && ItemDone(exp, d, query, key, value, scale, out, idx)
    ensures ItemMeans(exp, d, query, key, value, scale, out, idx)
  {
    hide RowMeans, Averaged, Scores, KvBase;
    forall kv: nat, group: nat, i: nat, pos: nat | IsItem(d, idx, kv, group, i, pos)
      ensures RowMeans(exp, d, query, key, value, scale, out, idx * d.width, kv * d.seqKv * d.width)
    {
      GroupKeys(d, idx, kv, group, i, pos);
      RowAverages(exp, d, query, key, value, scale, out, idx * d.width, kv * d.seqKv * d.width);
    }
  }

  // Every item has one place in its group.
  lemma EveryItem(d: Shape, idx: nat) returns (kv: nat, group: nat, i: nat, pos: nat)
    requires ShapeOk(d) && idx < Items(d)
    ensures IsItem(d, idx, kv, group, i, pos)
  {
    HeadOf(d, idx);
    GroupPositive(d);
    group := d.heads / d.kvHeads;
    kv, i, pos := PlaceOf(idx, d.seqQ, d.heads, d.kvHeads, group);
  }

  lemma PlaceOf(idx: nat, rows: nat, heads: nat, kvHeads: nat, group: nat) returns (kv: nat, i: nat, pos: nat)
    requires rows > 0 && idx / rows < heads && group > 0 && group * kvHeads == heads
    ensures kv < kvHeads && i < group && pos < rows && idx == (kv * group + i) * rows + pos
  {
    var h := idx / rows;
    kv, i, pos := h / group, h % group, idx % rows;
    GroupOf(h, heads, kvHeads, group);
    PlaceComposes(h, group, idx, rows);
  }

  lemma PlaceComposes(h: nat, group: nat, idx: nat, rows: nat)
    requires group > 0 && rows > 0 && h == idx / rows
    ensures idx == (h / group * group + h % group) * rows + idx % rows
  {
  }

  // In whatever order the items run, and however often, each output row ends as the average.
  method GqaAttention(exp: Exp, query: seq<real>, key: seq<real>, value: seq<real>, out: array<real>, d: Shape, scale: real, order: seq<nat>)
    requires ExpLaws(exp) && SizesOk(d, query, key, value, out.Length)
    modifies out
    ensures forall idx :: idx in order && idx < Items(d) ==> ItemDone(exp, d, query, key, value, scale, out[..], idx)
    ensures forall idx :: idx in order && idx < Items(d) ==> ItemMeans(exp, d, query, key, value, scale, out[..], idx)
  {
    for t := 0 to |order|
      invariant forall idx :: idx in order[..t] && idx < Items(d) ==> ItemDone(exp, d, query, key, value, scale, out[..], idx)
    {
      ghost var was := out[..];
      GqaItem(exp, query, key, value, out, d, scale, order[t]);
      assert order[..t + 1] == order[..t] + [order[t]];
      forall idx | idx in order[..t + 1] && idx < Items(d) ensures ItemDone(exp, d, query, key, value, scale, out[..], idx) {
        if idx != order[t] && order[t] < Items(d) {
          ItemKept(exp, d, query, key, value, scale, was, out[..], order[t], idx);
        }
      }
    }
    assert order[..|order|] == order;
    forall idx | idx in order && idx < Items(d) ensures ItemMeans(exp, d, query, key, value, scale, out[..], idx) {
      DoneMeans(exp, d, query, key, value, scale, out[..], idx);
    }
  }

  // ---- the two-pass reference ------------------------------------------------------------------------

  method ScoreEntry(query: seq<real>, key: seq<real>, q: nat, k: nat, width: nat, count: nat, scale: real, j: nat) returns (dot: real)
    requires j < count && q + width <= |query| && k + j * width + width <= |key|
    ensures dot == Scores(query, q, key, k, width, count, scale)[j]
  {
    dot := DotRow(query, q, key, k + j * width, width);
    dot := dot * scale;
  }

  ghost predicate IsMaximum(s: Vec, floor: real, m: real) {
    m >= floor && (m == floor || m in s) && forall j :: 0 <= j < |s| ==> s[j] <= m
  }

  lemma MaximumStep(s: Vec, floor: real, m: real, x: real)
    requires IsMaximum(s, floor, m)
    ensures IsMaximum(s + [x], floor, if x > m then x else m)
  {
    var t := s + [x];
    assert t[|s|] == x;
    if m in s {
      var j :| 0 <= j < |s| && s[j] == m;
      assert t[j] == m;
    }
  }

  // The scores of one row and the maximum, which starts from the given floor.
  method ScoreRow(query: seq<real>, key: seq<real>, q: nat, k: nat, width: nat, count: nat, scale: real, floor: real)
      returns (s: array<real>, maxS: real)
    requires q + width <= |query| && forall j :: 0 <= j < count ==> k + j * width + width <= |key|
    ensures fresh(s) && s[..] == Scores(query, q, key, k, width, count, scale)
    ensures IsMaximum(s[..], floor, maxS)
  {
    ghost var want := Scores(query, q, key, k, width, count, scale);
    s := new real[count];
    maxS := floor;
    for j := 0 to count
      invariant s[..j] == want[..j] && IsMaximum(want[..j], floor, maxS)
    {
      var dot := ScoreEntry(query, key, q, k, width, count, scale, j);
      s[j] := dot;
      assert want[..j + 1] == want[..j] + [dot];
      MaximumStep(want[..j], floor, maxS, dot);
      if dot > maxS {
        maxS := dot;
      }
    }
    assert s[..count] == s[..];
  }

  // The weights of the scores, not yet normalised, and their sum.
  method Weigh(exp: Exp, s: array<real>, maxS: real) returns (expSum: real)
    modifies s
    ensures forall j :: 0 <= j < s.Length ==> s[j] == exp(old(s[j]) - maxS)
    ensures expSum == Mass(exp, old(s[..]), maxS, s.Length)
  {
    expSum := 0.0;
    for j := 0 to s.Length
      invariant expSum == Mass(exp, old(s[..]), maxS, j)
      invariant forall i :: 0 <= i < j ==> s[i] == exp(old(s[i]) - maxS)
      invariant forall i :: j <= i < s.Length ==> s[i] == old(s[i])
    {
      s[j] := exp(s[j] - maxS);
      expSum := expSum + s[j];
    }
  }

  method Normalise(s: array<real>, total: real)
    requires total != 0.0
    modifies s
    ensures forall j :: 0 <= j < s.Length ==> s[j] == Quotient(old(s[j]), total)
  {
    for j := 0 to s.Length
      invariant forall i :: 0 <= i < j ==> s[i] == Quotient(old(s[i]), total)
      invariant forall i :: j <= i < s.Length ==> s[i] == old(s[i])
    {
      s[j] := s[j] / total;
    }
  }

  // One entry of the output row from the normalised weights.
  method AverageEntry(exp: Exp, weights: array<real>, value: seq<real>, k: nat, width: nat, d: nat, ghost s: Vec, ghost m: real, ghost total: real) returns (val: real)
    requires d < width && weights.Length == |s| && forall j :: 0 <= j < |s| ==> k + j * width + width <= |value|
    requires forall j :: 0 <= j < |s| ==> weights[j] == Quotient(exp(s[j] - m), total)
    ensures val == TwoPass(exp, s, Column(value, k, width, |s|, d), m, total, |s|)
  {
    val := 0.0;
    for j := 0 to weights.Length
      invariant val == TwoPass(exp, s, Column(value, k, width, |s|, d), m, total, j)
    {
      assert At(Column(value, k, width, |s|, d), j) == value[k + j * width + d];
      val := val + weights[j] * value[k + j * width + d];
    }
  }

  method AverageRow(exp: Exp, weights: array<real>, value: seq<real>, out: array<real>, base: nat, k: nat, width: nat, ghost s: Vec, ghost m: real)
    requires ExpLaws(exp) && |s| > 0 && weights != out && base + width <= out.Length
    requires weights.Length == |s| && forall j :: 0 <= j < |s| ==> k + j * width + width <= |value|
    requires forall j :: 0 <= j < |s| ==> weights[j] == Quotient(exp(s[j] - m), Mass(exp, s, m, |s|))
    modifies out
    ensures Averaged(out[..], base, width, exp, s, value, k)
    ensures OnlyRow(out, base, width)
  {
    for d := 0 to width
      invariant forall i :: base <= i < base + d ==> out[i] == Attend(exp, s, Column(value, k, width, |s|, i - base))
      invariant OnlyRow(out, base, width)
    {
      var val := AverageEntry(exp, weights, value, k, width, d, s, m, Mass(exp, s, m, |s|));
      TwoPassIsAttend(exp, s, Column(value, k, width, |s|, d), m);
      out[base + d] := val;
    }
  }

  method TwoPassRow(exp: Exp, query: seq<real>, key: seq<real>, value: seq<real>, out: array<real>,
                    q: nat, k: nat, width: nat, count: nat, scale: real, floor: real)
    requires ExpLaws(exp) && count > 0 && q + width <= |query| && q + width <= out.Length
    requires forall j :: 0 <= j < count ==> k + j * width + width <= |key| && k + j * width + width <= |value|
    modifies out
    ensures Averaged(out[..], q, width, exp, Scores(query, q, key, k, width, count, scale), value, k)
    ensures OnlyRow(out, q, width)
  {
    var weights, maxS := ScoreRow(query, key, q, k, width, count, scale, floor);
    ghost var s := weights[..];
    var expSum := Weigh(exp, weights, maxS);
    MassPositive(exp, s, maxS, count);
    Normalise(weights, expSum);
    AverageRow(exp, weights, value, out, q, k, width, s, maxS);
  }

  // The reference attends every head to its own keys.
  function OwnKeys(heads: nat, seqLen: nat, width: nat): Shape {
    Shape(heads, heads, width, seqLen, seqLen)
  }

  ghost predicate RowsDone(exp: Exp, d: Shape, query: Vec, key: Vec, value: Vec, scale: real, out: Vec, n: nat)
    requires ShapeOk(d) && n <= Items(d)
  {
    forall r: nat :: r < n ==> ItemDone(exp, d, query, key, value, scale, out, r)
  }

  lemma OwnRow(d: Shape, heads: nat, g: nat, qi: nat)
    requires heads > 0 && d == OwnKeys(heads, d.seqQ, d.width) && g < heads && qi < d.seqQ
    ensures ShapeOk(d) && g * d.seqQ + qi < Items(d) && g * d.seqQ + d.seqQ <= Items(d)
    ensures (g * d.seqQ + qi) * d.width == g * d.seqQ * d.width + qi * d.width
    ensures KvBase(d, g * d.seqQ + qi) == g * d.seqQ * d.width
  {
    NextMultiple(g, heads, d.seqQ);
    HeadIndex(g, d.seqQ, qi);
    assert heads / heads == 1;
  }

  lemma HeadIndex(g: nat, n: nat, q: nat)
    requires q < n
    ensures (g * n + q) / n == g
  {
    var h := (g * n + q) / n;
    if h < g { NextMultiple(h, g, n); }
    if h > g { NextMultiple(g, h, n); }
  }

  // One query row of the reference.
  method FlashRow(exp: Exp, query: seq<real>, key: seq<real>, value: seq<real>, out: array<real>, d: Shape, ghost heads: nat,
                  scale: real, ghost g: nat, ghost qi: nat, headOffset: nat, ghost r: nat, qBase: nat)
    requires ExpLaws(exp) && heads > 0 && d == OwnKeys(heads, d.seqQ, d.width) && SizesOk(d, query, key, value, out.Length)
    requires g < heads && qi < d.seqQ && headOffset == g * d.seqQ * d.width && r == g * d.seqQ + qi && qBase == r * d.width
    requires r < Items(d) && KvBase(d, r) == headOffset && RowsDone(exp, d, query, key, value, scale, out[..], r)
    modifies out
    ensures RowsDone(exp, d, query, key, value, scale, out[..], r + 1)
  {
    ghost var was := out[..];
    ItemFits(d, query, key, value, out.Length, r);
    TwoPassRow(exp, query, key, value, out, qBase, headOffset, d.width, d.seqQ, scale, -1000000000.0);
    forall t: nat | t < r ensures ItemDone(exp, d, query, key, value, scale, out[..], t) {
      ItemKept(exp, d, query, key, value, scale, was, out[..], r, t);
    }
  }

  const TILE_SIZE := 64

  method FlashHead(exp: Exp, query: seq<real>, key: seq<real>, value: seq<real>, out: array<real>, d: Shape, ghost heads: nat,
                   scale: real, g: nat)
    requires ExpLaws(exp) && heads > 0 && d == OwnKeys(heads, d.seqQ, d.width) && SizesOk(d, query, key, value, out.Length)
    requires g < heads && g * d.seqQ + d.seqQ <= Items(d) && RowsDone(exp, d, query, key, value, scale, out[..], g * d.seqQ)
    modifies out
    ensures RowsDone(exp, d, query, key, value, scale, out[..], g * d.seqQ + d.seqQ)
  {
    var headOffset := g * d.seqQ * d.width;
    var i := 0;
    while i < d.seqQ
      invariant 0 <= i <= d.seqQ && RowsDone(exp, d, query, key, value, scale, out[..], g * d.seqQ + i)
    {
      var end := if i + TILE_SIZE < d.seqQ then i + TILE_SIZE else d.seqQ;
      for qi := i to end
        invariant RowsDone(exp, d, query, key, value, scale, out[..], g * d.seqQ + qi)
      {
        OwnRow(d, heads, g, qi);
        FlashRow(exp, query, key, value, out, d, heads, scale, g, qi, headOffset, g * d.seqQ + qi, headOffset + qi * d.width);
      }
      i := end;
    }
  }

  // The four buffers, any of which may be missing.
  predicate Buffers(query: Option<seq<real>>, key: Option<seq<real>>, value: Option<seq<real>>, out: array?<real>) {
    query.Some? && key.Some? && value.Some? && out != null
  }

  // The reference fails on a missing buffer and on any size that is not positive, and else
  // averages every row.
  method FlashAttention(exp: Exp, query: Option<seq<real>>, key: Option<seq<real>>, value: Option<seq<real>>, out: array?<real>,
                        batchSize: int, numHeads: int, seqLen: int, headDim: int, scale: real) returns (ok: bool)
    requires ExpLaws(exp)
    requires Buffers(query, key, value, out) && batchSize > 0 && numHeads > 0 && seqLen > 0 && headDim > 0 ==>
               batchSize * numHeads > 0 && SizesOk(OwnKeys(batchSize * numHeads, seqLen, headDim), query.value, key.value, value.value, out.Length)
    modifies out
    ensures ok <==> Buffers(query, key, value, out) && batchSize > 0 && numHeads > 0 && seqLen > 0 && headDim > 0
    ensures !ok && out != null ==> out[..] == old(out[..])
    ensures ok ==> var d := OwnKeys(batchSize * numHeads, seqLen, headDim); RowsDone(exp, d, query.value, key.value, value.value, scale, out[..], Items(d))
    ensures ok ==> var d := OwnKeys(batchSize * numHeads, seqLen, headDim); forall idx: nat :: idx < Items(d) ==> ItemMeans(exp, d, query.value, key.value, value.value, scale, out[..], idx)
  {
    if query.None? || key.None? || value.None? || out == null {
      return false;
    }
    if seqLen <= 0 || headDim <= 0 || batchSize <= 0 || numHeads <= 0 {
      return false;
    }
    FlashHeads(exp, query.value, key.value, value.value, out, batchSize, numHeads, OwnKeys(batchSize * numHeads, seqLen, headDim), scale);
    ghost var d := OwnKeys(batchSize * numHeads, seqLen, headDim);
    forall idx: nat | idx < Items(d) ensures ItemMeans(exp, d, query.value, key.value, value.value, scale, out[..], idx) {
      DoneMeans(exp, d, query.value, key.value, value.value, scale, out[..], idx);
    }
    return true;
  }

  method FlashHeads(exp: Exp, query: seq<real>, key: seq<real>, value: seq<real>, out: array<real>,
                    batchSize: nat, numHeads: nat, d: Shape, scale: real)
    requires ExpLaws(exp) && batchSize > 0 && numHeads > 0 && batchSize * numHeads > 0
    requires d == OwnKeys(batchSize * numHeads, d.seqQ, d.width) && SizesOk(d, query, key, value, out.Length)
    modifies out
    ensures RowsDone(exp, d, query, key, value, scale, out[..], Items(d))
  {
    ghost var heads := batchSize * numHeads;
    var g := 0;
    for b := 0 to batchSize
      invariant g == b * numHeads && g * d.seqQ <= Items(d)
      invariant RowsDone(exp, d, query, key, value, scale, out[..], g * d.seqQ)
    {
      NextMultiple(b, batchSize, numHeads);
      for h := 0 to numHeads
        invariant g == b * numHeads + h && g * d.seqQ <= Items(d)
        invariant RowsDone(exp, d, query, key, value, scale, out[..], g * d.seqQ)
      {
        NextHead(g, heads, d.seqQ);
        FlashHead(exp, query, key, value, out, d, heads, scale, g);
        g := g + 1;
      }
    }
  }

  lemma NextHead(g: nat, heads: nat, n: nat)
    requires g < heads
    ensures (g + 1) * n == g * n + n <= heads * n
  {
    NextMultiple(g, heads, n);
  }

  // ---- one pass and two passes agree --------------------------------------------------------------------

  // Any two outputs whose rows are done hold the same numbers.
  lemma DoneIsUnique(exp: Exp, d: Shape, query: Vec, key: Vec, value: Vec, scale: real, a: Vec, b: Vec)
    requires SizesOk(d, query, key, value, |a|) && |a| == |b|
    requires RowsDone(exp, d, query, key, value, scale, a, Items(d)) && RowsDone(exp, d, query, key, value, scale, b, Items(d))
    ensures a == b
  {
    forall i | 0 <= i < |a| ensures a[i] == b[i] {
      WidthPositive(Items(d), d.width, i);
      var r := i / d.width;
      RowIndex(i, d.width, Items(d));
      assert ItemDone(exp, d, query, key, value, scale, a, r) && ItemDone(exp, d, query, key, value, scale, b, r);
    }
  }

  lemma WidthPositive(n: nat, w: nat, i: nat)
    requires i < n * w
    ensures w > 0
  {
  }

  lemma RowIndex(i: nat, w: nat, n: nat)
    requires w > 0 && i < n * w
    ensures i / w < n && i / w * w <= i < i / w * w + w
  {
    if i / w >= n { Widen(n, i / w, w); }
  }

  // When every head has its own keys, the single-pass kernel, run in any order over all items,
  // leaves exactly what the two-pass reference leaves.
  method OnlineEqualsTwoPass(exp: Exp, query: seq<real>, key: seq<real>, value: seq<real>, d: Shape, order: seq<nat>, scale: real)
      returns (online: array<real>, twoPass: array<real>)
    requires ExpLaws(exp) && d.heads > 0 && d.seqQ > 0 && d.width > 0 && d == OwnKeys(d.heads, d.seqQ, d.width)
    requires SizesOk(d, query, key, value, Items(d) * d.width) && forall idx: nat :: idx < Items(d) ==> idx in order
    ensures online[..] == twoPass[..] && online.Length == Items(d) * d.width
  {
    online, twoPass := new real[Items(d) * d.width], new real[Items(d) * d.width];
    GqaAttention(exp, query, key, value, online, d, scale, order);
    FlashHeads(exp, query, key, value, twoPass, 1, d.heads, d, scale);
    DoneIsUnique(exp, d, query, key, value, scale, online[..], twoPass[..]);
  }
}
