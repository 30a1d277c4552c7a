// Q6_K rows: packing, the reference decoding (tools/_offref.py, dequant_q6_K) and the fused
// matrix-vector loop (python/xecuda/kernels.py, matvec_q6k).
module QuantQ6 {
  import opened Division
  import opened HalfFloat
  import opened RangeSums
  import Q4 = QuantQ4

  type Byte = bv8
  type Packed = seq<Byte>

  const BLOCK_BYTES := 210

  // ---- six-bit codes ----------------------------------------------------------------------------

  // Code k of a lane: the nibbles of two bytes of ql, and two bits of a byte of qh for each.
  function Code(ql0: Byte, ql1: Byte, qh: Byte, k: nat): Byte
    requires k < 4
  {
    if k == 0 then (ql0 & 0xF) | ((qh & 3) << 4)
    else if k == 1 then (ql1 & 0xF) | (((qh >> 2) & 3) << 4)
    else if k == 2 then (ql0 >> 4) | (((qh >> 4) & 3) << 4)
    else (ql1 >> 4) | (((qh >> 6) & 3) << 4)
  }

  function PackQl(low: Byte, high: Byte): Byte {
    (low & 0xF) | ((high & 0xF) << 4)
  }

  function PackQh(q0: Byte, q1: Byte, q2: Byte, q3: Byte): Byte {
    (q0 >> 4) | ((q1 >> 4) << 2) | ((q2 >> 4) << 4) | ((q3 >> 4) << 6)
  }

  // The decoder undoes the packing of the four codes of a lane.
  lemma CodesRoundTrip(q0: Byte, q1: Byte, q2: Byte, q3: Byte)
    requires q0 < 64 && q1 < 64 && q2 < 64 && q3 < 64
    ensures var ql0, ql1, qh := PackQl(q0, q2), PackQl(q1, q3), PackQh(q0, q1, q2, q3); Code(ql0, ql1, qh, 0) == q0 && Code(ql0, ql1, qh, 1) == q1 && Code(ql0, ql1, qh, 2) == q2 && Code(ql0, ql1, qh, 3) == q3
  {
  }

  // A byte read as a signed number.
  function SignedByte(b: Byte): int {
    if b >= 128 then b as int - 256 else b as int
  }

  // ---- one weight -----------------------------------------------------------------------------------

  predicate Blocks(w: Packed, n: nat) {
    |w| == n * BLOCK_BYTES
  }

  lemma BlockFits(n: nat, b: nat)
    requires b < n
    ensures b * BLOCK_BYTES + BLOCK_BYTES <= n * BLOCK_BYTES
  {
  }

  // Weight l of lane k of half h of the block at `at`; fp reads half-precision numbers.
  function BlockWeight(fp: Half -> real, w: Packed, at: nat, h: nat, k: nat, l: nat): real
    requires at + BLOCK_BYTES <= |w| && h < 2 && k < 4 && l < 32
  {
    LaneWeight(fp(Q4.HalfAt(w, at + 208)), w, at, h, k, l)
  }

  // The same from the block's factor d.
  function LaneWeight(d: real, w: Packed, at: nat, h: nat, k: nat, l: nat): real
    requires at + BLOCK_BYTES <= |w| && h < 2 && k < 4 && l < 32
  {
    Scaled(d, BlockScale(w, at, h, k, l), BlockCode(w, at, h, k, l))
  }

  function Scaled(d: real, scale: real, code: real): real {
    d * scale * code
  }

  function BlockScale(w: Packed, at: nat, h: nat, k: nat, l: nat): real
    requires at + BLOCK_BYTES <= |w| && h < 2 && k < 4 && l < 32
  {
    SignedByte(w[at + 192 + 8 * h + l / 16 + 2 * k]) as real
  }

  function BlockCode(w: Packed, at: nat, h: nat, k: nat, l: nat): real
    requires at + BLOCK_BYTES <= |w| && h < 2 && k < 4 && l < 32
  {
    (Code(w[at + 64 * h + l], w[at + 64 * h + l + 32], w[at + 128 + 32 * h + l], k) as int - 32) as real
  }

  function Weight(fp: Half -> real, w: Packed, n: nat, b: nat, h: nat, k: nat, l: nat): real
    requires Blocks(w, n) && b < n && h < 2 && k < 4 && l < 32
  {
    BlockFits(n, b);
    BlockWeight(fp, w, b * BLOCK_BYTES, h, k, l)
  }

  // Entry i of the decoded row.
  function Entry(fp: Half -> real, w: Packed, n: nat, i: nat): real
    requires Blocks(w, n)
  {
    if i / 256 >= n then 0.0 else Weight(fp, w, n, i / 256, i % 256 / 128, i % 128 / 32, i % 32)
  }

  lemma Digits(b: nat, h: nat, k: nat, l: nat)
    requires h < 2 && k < 4 && l < 32
    ensures var i := 256 * b + 128 * h + 32 * k + l; i / 256 == b && i % 256 / 128 == h && i % 128 / 32 == k && i % 32 == l
  {
    DivMod(b, 128 * h + 32 * k + l, 256);
    DivMod(h, 32 * k + l, 128);
    DivMod(2 * b + h, 32 * k + l, 128);
    DivMod(k, l, 32);
    DivMod(8 * b + 4 * h + k, l, 32);
  }

  lemma EntryIndex(fp: Half -> real, w: Packed, n: nat, b: nat, h: nat, k: nat, l: nat)
    requires Blocks(w, n) && b < n && h < 2 && k < 4 && l < 32
    ensures Entry(fp, w, n, 256 * b + 128 * h + 32 * k + l) == Weight(fp, w, n, b, h, k, l)
  {
    Digits(b, h, k, l);
  }

  function Decoded(fp: Half -> real, w: Packed, n: nat): (v: seq<real>)
    requires Blocks(w, n)
    ensures |v| == 256 * n
  {
    seq(256 * n, (i: nat) => Entry(fp, w, n, i))
  }

  lemma DecodedAt(fp: Half -> real, w: Packed, n: nat, v: seq<real>, b: nat, h: nat, k: nat, l: nat, i: nat)
    requires Blocks(w, n) && b < n && h < 2 && k < 4 && l < 32 && i == 256 * b + 128 * h + 32 * k + l && v == Decoded(fp, w, n)
    ensures i < |v| && v[i] == Weight(fp, w, n, b, h, k, l)
  {
    EntryIndex(fp, w, n, b, h, k, l);
  }

  // ---- the reference loop ------------------------------------------------------------------------------

  // One round of the decoding loop: lane by lane.
  method DecodeLanes(ghost fp: Half -> real, w: Packed, at: nat, h: nat, l: nat, d: real) returns (v0: real, v1: real, v2: real, v3: real)
    requires at + BLOCK_BYTES <= |w| && h < 2 && l < 32 && d == fp(Q4.HalfAt(w, at + 208))
    ensures v0 == BlockWeight(fp, w, at, h, 0, l) && v1 == BlockWeight(fp, w, at, h, 1, l)
    ensures v2 == BlockWeight(fp, w, at, h, 2, l) && v3 == BlockWeight(fp, w, at, h, 3, l)
  {
    v0 := LaneWeight(d, w, at, h, 0, l);
    v1 := LaneWeight(d, w, at, h, 1, l);
    v2 := LaneWeight(d, w, at, h, 2, l);
    v3 := LaneWeight(d, w, at, h, 3, l);
  }

  // vals holds what the lanes of the first l rounds of half h gave.
  ghost predicate Filled(fp: Half -> real, w: Packed, at: nat, h: nat, l: nat, vals: seq<real>)
    requires at + BLOCK_BYTES <= |w| && h < 2 && l <= 32 && |vals| == 256
  {
    forall k, j: nat :: 0 <= k < 4 && j < l ==> vals[128 * h + 32 * k + j] == BlockWeight(fp, w, at, h, k, j)
  }

  method DecodeHalfBlock(fp: Half -> real, w: Packed, at: nat, h: nat, d: real, vals: array<real>)
    requires at + BLOCK_BYTES <= |w| && h < 2 && d == fp(Q4.HalfAt(w, at + 208)) && vals.Length == 256
    modifies vals
    ensures Filled(fp, w, at, h, 32, vals[..])
    ensures forall i :: 0 <= i < 256 && !(128 * h <= i < 128 * h + 128) ==> vals[i] == old(vals[i])
  {
    for l := 0 to 32
      invariant Filled(fp, w, at, h, l, vals[..])
      invariant forall i :: 0 <= i < 256 && !(128 * h <= i < 128 * h + 128) ==> vals[i] == old(vals[i])
    {
      var v0, v1, v2, v3 := DecodeLanes(fp, w, at, h, l, d);
      var base := 128 * h;
      vals[base + l] := v0;
      vals[base + l + 32] := v1;
      vals[base + l + 64] := v2;
      vals[base + l + 96] := v3;
    }
  }

  lemma FilledBlock(fp: Half -> real, w: Packed, n: nat, b: nat, vals: seq<real>, i: nat)
    requires Blocks(w, n) && b < n && |vals| == 256 && i < 256 && b * BLOCK_BYTES + BLOCK_BYTES <= |w|
    requires Filled(fp, w, b * BLOCK_BYTES, 0, 32, vals) && Filled(fp, w, b * BLOCK_BYTES, 1, 32, vals)
    ensures vals[i] == Entry(fp, w, n, 256 * b + i)
  {
    var h, k, l := i / 128, i % 128 / 32, i % 32;
    assert i == 128 * h + 32 * k + l;
    EntryIndex(fp, w, n, b, h, k, l);
    assert vals[128 * h + 32 * k + l] == BlockWeight(fp, w, b * BLOCK_BYTES, h, k, l);
  }

  method DecodeBlock(fp: Half -> real, w: Packed, n: nat, b: nat) returns (vals: array<real>)
    requires Blocks(w, n) && b < n
    ensures fresh(vals) && vals.Length == 256 && forall i :: 0 <= i < 256 ==> vals[i] == Entry(fp, w, n, 256 * b + i)
  {
    BlockFits(n, b);
    var at := b * BLOCK_BYTES;
    var d := fp(Q4.HalfAt(w, at + 208));
    vals := new real[256](_ => 0.0);
    DecodeHalfBlock(fp, w, at, 0, d, vals);
    ghost var first := vals[..];
    DecodeHalfBlock(fp, w, at, 1, d, vals);
    assert Filled(fp, w, at, 0, 32, vals[..]) by { FirstHalfKept(fp, w, at, first, vals[..]); }
    forall i: nat | i < 256 ensures vals[i] == Entry(fp, w, n, 256 * b + i) {
      FilledBlock(fp, w, n, b, vals[..], i);
    }
  }

  lemma FirstHalfKept(fp: Half -> real, w: Packed, at: nat, was: seq<real>, now: seq<real>)
    requires at + BLOCK_BYTES <= |w| && |was| == |now| == 256 && Filled(fp, w, at, 0, 32, was)
    requires forall i :: 0 <= i < 128 ==> now[i] == was[i]
    ensures Filled(fp, w, at, 0, 32, now)
  {
    forall k, j: nat | 0 <= k < 4 && j < 32 ensures now[128 * 0 + 32 * k + j] == BlockWeight(fp, w, at, 0, k, j) {
      assert was[128 * 0 + 32 * k + j] == BlockWeight(fp, w, at, 0, k, j);
    }
  }

  method DequantQ6(fp: Half -> real, w: Packed, n: nat) returns (out: seq<real>)
    requires Blocks(w, n)
    ensures out == Decoded(fp, w, n)
  {
    out := [];
    for b := 0 to n
      invariant |out| == 256 * b && forall i :: 0 <= i < 256 * b ==> out[i] == Entry(fp, w, n, i)
    {
      var vals := DecodeBlock(fp, w, n, b);
      out := Extend(fp, w, n, 256 * b, out, vals);
    }
  }

  method Extend(ghost fp: Half -> real, ghost w: Packed, ghost n: nat, ghost at: nat, out: seq<real>, vals: array<real>) returns (r: seq<real>)
    requires Blocks(w, n) && |out| == at && vals.Length == 256
    requires forall i :: 0 <= i < at ==> out[i] == Entry(fp, w, n, i)
    requires forall i :: 0 <= i < 256 ==> vals[i] == Entry(fp, w, n, at + i)
    ensures |r| == at + 256 && forall i :: 0 <= i < |r| ==> r[i] == Entry(fp, w, n, i)
  {
    r := out + vals[..];
    forall i | at <= i < |r| ensures r[i] == Entry(fp, w, n, i) {
      assert r[i] == vals[i - at];
    }
  }

  // ---- the fused row product ---------------------------------------------------------------------------------

  // s += weight * x
  method AddLane(ghost fp: Half -> real, w: Packed, ghost n: nat, ghost b: nat, at: nat, h: nat, k: nat, l: nat, i: nat, s: real, d: real,
                 x: seq<real>, ghost v: seq<real>) returns (r: real)
    requires Blocks(w, n) && b < n && h < 2 && k < 4 && l < 32 && at == b * BLOCK_BYTES && at + BLOCK_BYTES <= |w|
    requires i == 256 * b + 128 * h + 32 * k + l && |v| <= |x| && v == Decoded(fp, w, n) && d == fp(Q4.HalfAt(w, at + 208))
    ensures r == s + Q4.Products(v, x)(i)
  {
    DecodedAt(fp, w, n, v, b, h, k, l, i);
    var q := LaneWeight(d, w, at, h, k, l);
    r := AddProduct(s, q, x, i, v);
  }

  method AddProduct(s: real, q: real, x: seq<real>, i: nat, ghost v: seq<real>) returns (r: real)
    requires i < |v| <= |x| && v[i] == q
    ensures r == s + Q4.Products(v, x)(i)
  {
    r := s + q * x[i];
  }

  // The four running sums of one half, which are added up after its 32 rounds.
  method LaneSums(ghost fp: Half -> real, w: Packed, ghost n: nat, ghost b: nat, at: nat, h: nat, a: nat, d: real, x: seq<real>, ghost v: seq<real>)
      returns (s0: real, s1: real, s2: real, s3: real)
    requires Blocks(w, n) && b < n && h < 2 && at == b * BLOCK_BYTES && at + BLOCK_BYTES <= |w|
    requires a == 256 * b + 128 * h && |v| <= |x| && v == Decoded(fp, w, n) && d == fp(Q4.HalfAt(w, at + 208))
    ensures s0 == Sum(Q4.Products(v, x), a, 32) && s1 == Sum(Q4.Products(v, x), a + 32, 32)
    ensures s2 == Sum(Q4.Products(v, x), a + 64, 32) && s3 == Sum(Q4.Products(v, x), a + 96, 32)
  {
    s0, s1, s2, s3 := 0.0, 0.0, 0.0, 0.0;
    for l := 0 to 32
      invariant s0 == Sum(Q4.Products(v, x), a, l) && s1 == Sum(Q4.Products(v, x), a + 32, l)
      invariant s2 == Sum(Q4.Products(v, x), a + 64, l) && s3 == Sum(Q4.Products(v, x), a + 96, l)
    {
      s0 := AddLane(fp, w, n, b, at, h, 0, l, a + l, s0, d, x, v);
      s1 := AddLane(fp, w, n, b, at, h, 1, l, a + 32 + l, s1, d, x, v);
      s2 := AddLane(fp, w, n, b, at, h, 2, l, a + 64 + l, s2, d, x, v);
      s3 := AddLane(fp, w, n, b, at, h, 3, l, a + 96 + l, s3, d, x, v);
    }
  }

  lemma FourLanes(f: nat -> real, a: nat)
    ensures Sum(f, 0, a + 128) == Sum(f, 0, a) + (Sum(f, a, 32) + Sum(f, a + 32, 32) + Sum(f, a + 64, 32) + Sum(f, a + 96, 32))
  {
    SumSplit(f, 0, a, 128);
    SumSplit(f, a, 32, 96);
    SumSplit(f, a + 32, 32, 64);
    SumSplit(f, a + 64, 32, 32);
  }

  method ProductHalf(ghost fp: Half -> real, w: Packed, ghost n: nat, ghost b: nat, at: nat, h: nat, a: nat, start: real, d: real, x: seq<real>, ghost v: seq<real>)
      returns (sum: real)
    requires Blocks(w, n) && b < n && h < 2 && at == b * BLOCK_BYTES && at + BLOCK_BYTES <= |w|
    requires a == 256 * b + 128 * h && |v| <= |x| && v == Decoded(fp, w, n) && d == fp(Q4.HalfAt(w, at + 208))
    requires start == Sum(Q4.Products(v, x), 0, a)
    ensures sum == Sum(Q4.Products(v, x), 0, a + 128)
  {
    var s0, s1, s2, s3 := LaneSums(fp, w, n, b, at, h, a, d, x, v);
    FourLanes(Q4.Products(v, x), a);
    sum := start + (s0 + s1 + s2 + s3);
  }

  method ProductBlock(fp: Half -> real, w: Packed, n: nat, b: nat, a: nat, start: real, x: seq<real>, ghost v: seq<real>) returns (sum: real)
    requires Blocks(w, n) && b < n && a == 256 * b && |v| <= |x| && v == Decoded(fp, w, n)
    requires start == Sum(Q4.Products(v, x), 0, a)
    ensures sum == Sum(Q4.Products(v, x), 0, a + 256)
  {
    BlockFits(n, b);
    var d := fp(Q4.HalfAt(w, b * BLOCK_BYTES + 208));
    sum := ProductHalf(fp, w, n, b, b * BLOCK_BYTES, 0, a, start, d, x, v);
    sum := ProductHalf(fp, w, n, b, b * BLOCK_BYTES, 1, a + 128, sum, d, x, v);
  }

  method ProductRow(fp: Half -> real, w: Packed, n: nat, x: seq<real>) returns (sum: real)
    requires Blocks(w, n) && 256 * n <= |x|
    ensures sum == Q4.RowProduct(Decoded(fp, w, n), x)
  {
    ghost var v := Decoded(fp, w, n);
    sum := 0.0;
    var a := 0;
    for b := 0 to n
      invariant a == 256 * b && sum == Sum(Q4.Products(v, x), 0, a)
    {
      sum := ProductBlock(fp, w, n, b, a, sum, x, v);
      a := a + 256;
    }
    assert a == |v|;
  }

  predicate RowFits(weights: seq<Byte>, n: nat, row: nat) {
    row * (n * BLOCK_BYTES) + n * BLOCK_BYTES <= |weights|
  }

  function RowBytes(weights: seq<Byte>, n: nat, row: nat): (w: Packed)
    requires RowFits(weights, n, row)
    ensures Blocks(w, n)
  {
    weights[row * (n * BLOCK_BYTES)..row * (n * BLOCK_BYTES) + n * BLOCK_BYTES]
  }

  // The kernel after its barrier, for one work-item.
  method MatvecItem(fp: Half -> real, weights: seq<Byte>, x: seq<real>, y: array<real>, nCols: nat, nRows: nat, row: nat)
    requires |weights| == nRows * (nCols / 256 * BLOCK_BYTES) && |x| == nCols && y.Length == nRows
    modifies y
    ensures row < nRows ==> RowFits(weights, nCols / 256, row)
    ensures row < nRows ==> y[row] == Q4.RowProduct(Decoded(fp, RowBytes(weights, nCols / 256, row), nCols / 256), x)
    ensures forall k :: 0 <= k < nRows && k != row ==> y[k] == old(y[k])
  {
    if row >= nRows {
      return;
    }
    NextMultiple(row, nRows, nCols / 256 * BLOCK_BYTES);
    var sum := ProductRow(fp, RowBytes(weights, nCols / 256, row), nCols / 256, x);
    y[row] := sum;
  }

  // ---- the same row under both readers of half-precision numbers ------------------------------------------------

  ghost predicate Finite(w: Packed, n: nat)
    requires Blocks(w, n)
  {
    forall b: nat :: b < n ==> (BlockFits(n, b); Exponent(Q4.HalfAt(w, b * BLOCK_BYTES + 208)) != 31)
  }

  lemma SameBlockWeight(fp: Half -> real, fq: Half -> real, w: Packed, at: nat, h: nat, k: nat, l: nat)
    requires at + BLOCK_BYTES <= |w| && h < 2 && k < 4 && l < 32 && fp(Q4.HalfAt(w, at + 208)) == fq(Q4.HalfAt(w, at + 208))
    ensures BlockWeight(fp, w, at, h, k, l) == BlockWeight(fq, w, at, h, k, l)
  {
  }

  lemma SameWeight(w: Packed, n: nat, b: nat, h: nat, k: nat, l: nat)
    requires Blocks(w, n) && Finite(w, n) && b < n && h < 2 && k < 4 && l < 32
    ensures Weight(Kernel, w, n, b, h, k, l) == Weight(Q4.ReferenceNumber, w, n, b, h, k, l)
  {
    BlockFits(n, b);
    KernelAgreesExactly(Q4.HalfAt(w, b * BLOCK_BYTES + 208));
    SameBlockWeight(Kernel, Q4.ReferenceNumber, w, b * BLOCK_BYTES, h, k, l);
  }

  lemma SameEntry(w: Packed, n: nat, i: nat)
    requires Blocks(w, n) && Finite(w, n) && i < 256 * n
    ensures Entry(Kernel, w, n, i) == Entry(Q4.ReferenceNumber, w, n, i)
  {
    SameWeight(w, n, i / 256, i % 256 / 128, i % 128 / 32, i % 32);
  }

  lemma DecodersAgree(w: Packed, n: nat)
    requires Blocks(w, n) && Finite(w, n)
    ensures Decoded(Kernel, w, n) == Decoded(Q4.ReferenceNumber, w, n)
  {
    forall i: nat | i < 256 * n ensures Decoded(Kernel, w, n)[i] == Decoded(Q4.ReferenceNumber, w, n)[i] {
      SameEntry(w, n, i);
    }
  }
}
