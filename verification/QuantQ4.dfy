// Q4_K rows: packing, the reference decoding (tools/_offref.py, dequant_q4k), the host's
// decoding of an embedding row (python/xecuda/model.py, _lookup_embedding) and the fused
// matrix-vector loop (python/xecuda/kernels.py, matvec_q4k).
module QuantQ4 {
  import opened Division
  import opened HalfFloat
  import opened RangeSums

  type Byte = bv8

  const BLOCK_BYTES := 144

  // ---- six-bit scales and minimums ------------------------------------------------------------

  // Scale and minimum j of the twelve bytes at `at`.
  function ScaleMin(w: seq<Byte>, at: nat, j: nat): (Byte, Byte)
    requires j < 8 && at + 12 <= |w|
  {
    if j < 4 then (w[at + j] & 63, w[at + j + 4] & 63)
    else ((w[at + j + 4] & 0xF) | ((w[at + j - 4] >> 6) << 4), (w[at + j + 4] >> 4) | ((w[at + j] >> 6) << 4))
  }

  predicate SixBits(s: seq<Byte>) {
    |s| == 8 && forall j :: 0 <= j < 8 ==> s[j] < 64
  }

  function PackedByte(s: seq<Byte>, m: seq<Byte>, i: nat): Byte
    requires SixBits(s) && SixBits(m) && i < 12
  {
    if i < 4 then s[i] | ((s[i + 4] >> 4) << 6)
    else if i < 8 then m[i - 4] | ((m[i] >> 4) << 6)
    else (s[i - 4] & 0xF) | ((m[i - 4] & 0xF) << 4)
  }

  // Eight scales and eight minimums in twelve bytes.
  function PackScales(s: seq<Byte>, m: seq<Byte>): (p: seq<Byte>)
    requires SixBits(s) && SixBits(m)
    ensures |p| == 12
  {
    seq(12, i requires 0 <= i < 12 => PackedByte(s, m, i))
  }

  lemma LowPair(a: Byte, b: Byte)
    requires a < 64 && b < 64
    ensures (a | ((b >> 4) << 6)) & 63 == a && (a | ((b >> 4) << 6)) >> 6 == b >> 4
  {
  }

  lemma HighPair(a: Byte, b: Byte)
    requires a < 64 && b < 64
    ensures (((a & 0xF) | ((b & 0xF) << 4)) & 0xF) | ((a >> 4) << 4) == a
    ensures (((a & 0xF) | ((b & 0xF) << 4)) >> 4) | ((b >> 4) << 4) == b
  {
  }

  // The decoder undoes the packing, at any place in a row.
  lemma ScalesRoundTrip(s: seq<Byte>, m: seq<Byte>, before: seq<Byte>, after: seq<Byte>, j: nat)
    requires SixBits(s) && SixBits(m) && j < 8
    ensures ScaleMin(before + PackScales(s, m) + after, |before|, j) == (s[j], m[j])
  {
    var p := PackScales(s, m);
    var w := before + p + after;
    assert forall i :: 0 <= i < 12 ==> w[|before| + i] == p[i];
    if j < 4 {
      LowPair(s[j], s[j + 4]);
      LowPair(m[j], m[j + 4]);
    } else {
      LowPair(s[j - 4], s[j]);
      LowPair(m[j - 4], m[j]);
      HighPair(s[j], m[j]);
    }
  }

  function PackNibbles(low: Byte, high: Byte): Byte {
    (low & 0xF) | ((high & 0xF) << 4)
  }

  lemma NibblesRoundTrip(low: Byte, high: Byte)
    requires low < 16 && high < 16
    ensures PackNibbles(low, high) & 0xF == low && PackNibbles(low, high) >> 4 == high
  {
  }

  // ---- one weight ---------------------------------------------------------------------------------

  type Packed = seq<Byte>

  function Float(b: Byte): real {
    b as int as real
  }

  // The half-precision number stored little-endian at `at`.
  function HalfAt(w: Packed, at: nat): Half
    requires at + 2 <= |w|
  {
    (w[at] as int) + 256 * (w[at + 1] as int)
  }

  predicate Blocks(w: Packed, n: nat) {
    |w| == n * BLOCK_BYTES
  }

  lemma BlockFits(n: nat, b: nat)
    requires b < n
    ensures b * BLOCK_BYTES + BLOCK_BYTES <= n * BLOCK_BYTES
  {
  }

  // The factor and the offset of the low or high half of group g of block b; fp reads
  // half-precision numbers.
  function Factors(fp: Half -> real, w: Packed, n: nat, b: nat, g: nat, high: bool): (real, real)
    requires Blocks(w, n) && b < n && g < 4
  {
    BlockFits(n, b);
    BlockFactors(fp, w, b * BLOCK_BYTES, if high then 2 * g + 1 else 2 * g)
  }

  // The same for scale j of the block at `at`.
  function BlockFactors(fp: Half -> real, w: Packed, at: nat, j: nat): (real, real)
    requires at + BLOCK_BYTES <= |w| && j < 8
  {
    (fp(HalfAt(w, at)) * Float(ScaleMin(w, at + 4, j).0), fp(HalfAt(w, at + 2)) * Float(ScaleMin(w, at + 4, j).1))
  }

  function Nibble(qv: Byte, high: bool): Byte {
    if high then qv >> 4 else qv & 0xF
  }

  // The byte that holds quant l of both halves.
  function Quant(w: Packed, n: nat, b: nat, g: nat, l: nat): Byte
    requires Blocks(w, n) && b < n && g < 4 && l < 32
  {
    BlockFits(n, b);
    w[b * BLOCK_BYTES + 16 + 32 * g + l]
  }

  function Weight(fp: Half -> real, w: Packed, n: nat, b: nat, g: nat, l: nat, high: bool): real
    requires Blocks(w, n) && b < n && g < 4 && l < 32
  {
    var f := Factors(fp, w, n, b, g, high);
    Affine(f.0, f.1, Nibble(Quant(w, n, b, g, l), high))
  }

  function Affine(d: real, m: real, q: Byte): real {
    d * Float(q) - m
  }

  // Entry i of the decoded row.
  function Entry(fp: Half -> real, w: Packed, n: nat, i: nat): real
    requires Blocks(w, n)
  {
    if i / 256 >= n then 0.0 else Weight(fp, w, n, i / 256, i % 256 / 64, i % 32, i % 64 >= 32)
  }

  lemma EntryIndex(fp: Half -> real, w: Packed, n: nat, b: nat, g: nat, l: nat, high: bool)
    requires Blocks(w, n) && b < n && g < 4 && l < 32
    ensures Entry(fp, w, n, 256 * b + 64 * g + l + if high then 32 else 0) == Weight(fp, w, n, b, g, l, high)
  {
    var i := 256 * b + 64 * g + l + if high then 32 else 0;
    Digits(b, g, l, if high then 1 else 0);
  }

  lemma Digits(b: nat, g: nat, l: nat, h: nat)
    requires g < 4 && l < 32 && h < 2
    ensures var i := 256 * b + 64 * g + l + 32 * h; i / 256 == b && i % 256 / 64 == g && i % 32 == l && (i % 64 >= 32 <==> h == 1)
  {
    DivMod(b, 64 * g + l + 32 * h, 256);
    DivMod(g, l + 32 * h, 64);
    DivMod(8 * b + 2 * g + h, l, 32);
    DivMod(4 * b + g, l + 32 * h, 64);
  }

  function Decoded(fp: Half -> real, w: Packed, n: nat): (v: seq<real>)
    requires Blocks(w, n)
    ensures |v| == 256 * n
  {
    seq(256 * n, (i: nat) => Entry(fp, w, n, i))
  }

  // ---- decoding loops ---------------------------------------------------------------------------

  method HalfFactors(ghost fp: Half -> real, w: Packed, at: nat, j: nat, d: real, dmin: real) returns (factor: real, offset: real)
    requires at + BLOCK_BYTES <= |w| && j < 8 && d == fp(HalfAt(w, at)) && dmin == fp(HalfAt(w, at + 2))
    ensures factor == BlockFactors(fp, w, at, j).0 && offset == BlockFactors(fp, w, at, j).1
  {
    var sm := ScaleMin(w, at + 4, j);
    factor, offset := d * Float(sm.0), dmin * Float(sm.1);
  }

  // The factors of both halves of a group from the numbers of its block.
  method GroupFactors(fp: Half -> real, w: Packed, ghost n: nat, ghost b: nat, ghost g: nat, at: nat, isIdx: nat, d: real, dmin: real)
      returns (d1: real, m1: real, d2: real, m2: real)
    requires Blocks(w, n) && b < n && g < 4 && at == b * BLOCK_BYTES && isIdx == 2 * g && at + BLOCK_BYTES <= |w|
    requires d == fp(HalfAt(w, at)) && dmin == fp(HalfAt(w, at + 2))
    ensures d1 == Factors(fp, w, n, b, g, false).0 && m1 == Factors(fp, w, n, b, g, false).1
    ensures d2 == Factors(fp, w, n, b, g, true).0 && m2 == Factors(fp, w, n, b, g, true).1
  {
    d1, m1 := HalfFactors(fp, w, at, isIdx, d, dmin);
    d2, m2 := HalfFactors(fp, w, at, isIdx + 1, d, dmin);
  }

  method DecodeHalf(fp: Half -> real, w: Packed, n: nat, b: nat, g: nat, high: bool, d: real, m: real) returns (out: seq<real>)
    requires Blocks(w, n) && b < n && g < 4 && d == Factors(fp, w, n, b, g, high).0 && m == Factors(fp, w, n, b, g, high).1
    ensures |out| == 32 && forall k :: 0 <= k < 32 ==> out[k] == Weight(fp, w, n, b, g, k, high)
  {
    out := [];
    for l := 0 to 32
      invariant |out| == l && forall k :: 0 <= k < l ==> out[k] == Weight(fp, w, n, b, g, k, high)
    {
      out := out + [Affine(d, m, Nibble(Quant(w, n, b, g, l), high))];
    }
  }

  lemma GroupEntries(fp: Half -> real, w: Packed, n: nat, b: nat, g: nat, low: seq<real>, high: seq<real>)
    requires Blocks(w, n) && b < n && g < 4 && |low| == 32 && |high| == 32
    requires forall k :: 0 <= k < 32 ==> low[k] == Weight(fp, w, n, b, g, k, false)
    requires forall k :: 0 <= k < 32 ==> high[k] == Weight(fp, w, n, b, g, k, true)
    ensures forall k :: 0 <= k < 64 ==> (low + high)[k] == Entry(fp, w, n, 256 * b + 64 * g + k)
  {
    forall k | 0 <= k < 64 ensures (low + high)[k] == Entry(fp, w, n, 256 * b + 64 * g + k) {
      EntryIndex(fp, w, n, b, g, if k < 32 then k else k - 32, k >= 32);
    }
  }

  // One group of 64 weights of dequant_q4k: the 32 low nibbles, then the 32 high ones.
  method DecodeGroup(fp: Half -> real, w: Packed, n: nat, b: nat, g: nat, d: real, mn: real) returns (out: seq<real>)
    requires Blocks(w, n) && b < n && g < 4 && b * BLOCK_BYTES + BLOCK_BYTES <= |w|
    requires d == fp(HalfAt(w, b * BLOCK_BYTES)) && mn == fp(HalfAt(w, b * BLOCK_BYTES + 2))
    ensures |out| == 64 && forall k :: 0 <= k < 64 ==> out[k] == Entry(fp, w, n, 256 * b + 64 * g + k)
  {
    var d1, m1v, d2, m2v := GroupFactors(fp, w, n, b, g, b * BLOCK_BYTES, 2 * g, d, mn);
    var low := DecodeHalf(fp, w, n, b, g, false, d1, m1v);
    var high := DecodeHalf(fp, w, n, b, g, true, d2, m2v);
    GroupEntries(fp, w, n, b, g, low, high);
    out := low + high;
  }

  method DequantQ4(fp: Half -> real, w: Packed, n: nat) returns (out: seq<real>)
    requires Blocks(w, n)
    ensures out == Decoded(fp, w, n)
  {
    out := [];
    for b := 0 to n
      invariant |out| == 256 * b && forall k :: 0 <= k < 256 * b ==> out[k] == Entry(fp, w, n, k)
    {
      BlockFits(n, b);
      var d, mn := fp(HalfAt(w, b * BLOCK_BYTES)), fp(HalfAt(w, b * BLOCK_BYTES + 2));
      for g := 0 to 4
        invariant |out| == 256 * b + 64 * g && forall k :: 0 <= k < |out| ==> out[k] == Entry(fp, w, n, k)
      {
        var group := DecodeGroup(fp, w, n, b, g, d, mn);
        out := AppendGroup(fp, w, n, 256 * b + 64 * g, out, group);
      }
    }
  }

  method AppendGroup(ghost fp: Half -> real, ghost w: Packed, ghost n: nat, ghost at: nat, out: seq<real>, group: seq<real>) returns (r: seq<real>)
    requires Blocks(w, n) && |out| == at && |group| == 64
    requires forall k :: 0 <= k < at ==> out[k] == Entry(fp, w, n, k)
    requires forall k :: 0 <= k < 64 ==> group[k] == Entry(fp, w, n, at + k)
    ensures |r| == at + 64 && forall k :: 0 <= k < |r| ==> r[k] == Entry(fp, w, n, k)
  {
    r := out + group;
    forall k | at <= k < |r| ensures r[k] == Entry(fp, w, n, k) {
      assert r[k] == group[k - at];
    }
  }

  // The host decodes the row of one token, both nibbles of a byte at a time; entries past the last
  // whole block stay zero.
  method LookupEmbedding(fp: Half -> real, raw: seq<Byte>, token: nat, dim: nat) returns (rowF32: array<real>)
    requires var n := dim / 256; token * (n * BLOCK_BYTES) + n * BLOCK_BYTES <= |raw|
    ensures fresh(rowF32) && rowF32.Length == dim
    ensures var n, at := dim / 256, token * (dim / 256 * BLOCK_BYTES); rowF32[..256 * n] == Decoded(fp, raw[at..at + n * BLOCK_BYTES], n)
    ensures forall k :: 256 * (dim / 256) <= k < dim ==> rowF32[k] == 0.0
  {
    var n := dim / 256;
    var offset := token * (n * BLOCK_BYTES);
    rowF32 := new real[dim](_ => 0.0);
    LookupBlocks(fp, raw[offset..offset + n * BLOCK_BYTES], n, rowF32);
    assert rowF32[..256 * n] == Decoded(fp, raw[offset..offset + n * BLOCK_BYTES], n);
  }

  method LookupBlocks(fp: Half -> real, w: Packed, n: nat, rowF32: array<real>)
    requires Blocks(w, n) && 256 * n <= rowF32.Length
    modifies rowF32
    ensures forall k :: 0 <= k < 256 * n ==> rowF32[k] == Entry(fp, w, n, k)
    ensures forall k :: 256 * n <= k < rowF32.Length ==> rowF32[k] == old(rowF32[k])
  {
    for b := 0 to n
      invariant forall k :: 0 <= k < 256 * b ==> rowF32[k] == Entry(fp, w, n, k)
      invariant forall k :: 256 * n <= k < rowF32.Length ==> rowF32[k] == old(rowF32[k])
    {
      for g := 0 to 4
        invariant forall k :: 0 <= k < 256 * b + 64 * g ==> rowF32[k] == Entry(fp, w, n, k)
        invariant forall k :: 256 * n <= k < rowF32.Length ==> rowF32[k] == old(rowF32[k])
      {
        LookupGroup(fp, w, n, b, g, rowF32);
      }
    }
  }

  method LookupGroup(fp: Half -> real, w: Packed, n: nat, b: nat, g: nat, rowF32: array<real>)
    requires Blocks(w, n) && b < n && g < 4 && 256 * n <= rowF32.Length
    modifies rowF32
    ensures forall k :: 256 * b + 64 * g <= k < 256 * b + 64 * g + 64 ==> rowF32[k] == Entry(fp, w, n, k)
    ensures forall k :: 0 <= k < rowF32.Length && !(256 * b + 64 * g <= k < 256 * b + 64 * g + 64) ==> rowF32[k] == old(rowF32[k])
  {
    BlockFits(n, b);
    var at, base := b * BLOCK_BYTES, 256 * b + 64 * g;
    var d, dmin := fp(HalfAt(w, at)), fp(HalfAt(w, at + 2));
    var d1, mv1, d2, mv2 := GroupFactors(fp, w, n, b, g, at, 2 * g, d, dmin);
    LookupPairs(fp, w, n, b, g, rowF32, base, d1, mv1, d2, mv2);
    forall k | base <= k < base + 64 ensures rowF32[k] == Entry(fp, w, n, k) {
      EntryIndex(fp, w, n, b, g, if k < base + 32 then k - base else k - base - 32, k >= base + 32);
    }
  }

  method LookupPairs(fp: Half -> real, w: Packed, n: nat, b: nat, g: nat, rowF32: array<real>, base: nat, d1: real, m1: real, d2: real, m2: real)
    requires Blocks(w, n) && b < n && g < 4 && base + 64 <= rowF32.Length
    requires d1 == Factors(fp, w, n, b, g, false).0 && m1 == Factors(fp, w, n, b, g, false).1
    requires d2 == Factors(fp, w, n, b, g, true).0 && m2 == Factors(fp, w, n, b, g, true).1
    modifies rowF32
    ensures forall k :: base <= k < base + 32 ==> rowF32[k] == Weight(fp, w, n, b, g, k - base, false)
    ensures forall k :: base + 32 <= k < base + 64 ==> rowF32[k] == Weight(fp, w, n, b, g, k - base - 32, true)
    ensures forall k :: 0 <= k < rowF32.Length && !(base <= k < base + 64) ==> rowF32[k] == old(rowF32[k])
  {
    for l := 0 to 32
      invariant forall k :: base <= k < base + l ==> rowF32[k] == Weight(fp, w, n, b, g, k - base, false)
      invariant forall k :: base + 32 <= k < base + 32 + l ==> rowF32[k] == Weight(fp, w, n, b, g, k - base - 32, true)
      invariant forall k :: 0 <= k < rowF32.Length && !(base <= k < base + 64) ==> rowF32[k] == old(rowF32[k])
    {
      var low, high := PairValues(fp, w, n, b, g, l, d1, m1, d2, m2);
      rowF32[base + l] := low;
      rowF32[base + l + 32] := high;
    }
  }

  method OneValue(ghost fp: Half -> real, ghost w: Packed, ghost n: nat, ghost b: nat, ghost g: nat, ghost l: nat, high: bool, d: real, m: real, qv: Byte)
      returns (v: real)
    requires Blocks(w, n) && b < n && g < 4 && l < 32 && qv == Quant(w, n, b, g, l) && d == Factors(fp, w, n, b, g, high).0 && m == Factors(fp, w, n, b, g, high).1
    ensures v == Weight(fp, w, n, b, g, l, high)
  {
    v := Affine(d, m, Nibble(qv, high));
  }

  method PairValues(fp: Half -> real, w: Packed, n: nat, b: nat, g: nat, l: nat, d1: real, m1: real, d2: real, m2: real)
      returns (low: real, high: real)
    requires Blocks(w, n) && b < n && g < 4 && l < 32
    requires d1 == Factors(fp, w, n, b, g, false).0 && m1 == Factors(fp, w, n, b, g, false).1 && d2 == Factors(fp, w, n, b, g, true).0 && m2 == Factors(fp, w, n, b, g, true).1
    ensures low == Weight(fp, w, n, b, g, l, false) && high == Weight(fp, w, n, b, g, l, true)
  {
    var qv := Quant(w, n, b, g, l);
    low := OneValue(fp, w, n, b, g, l, false, d1, m1, qv);
    high := OneValue(fp, w, n, b, g, l, true, d2, m2, qv);
  }

  // ---- the fused row product -------------------------------------------------------------------------

  // Entries of two vectors multiplied; the product of a decoded row with x is their sum.
  // The sum of the first i products.
  function SumTo(v: seq<real>, x: seq<real>, i: nat): real {
    Sum(Products(v, x), 0, i)
  }

  function Products(v: seq<real>, x: seq<real>): nat -> real {
    (i: nat) => if i < |v| && i < |x| then v[i] * x[i] else 0.0
  }

  function RowProduct(v: seq<real>, x: seq<real>): real {
    SumTo(v, x, |v|)
  }

  lemma DecodedAt(fp: Half -> real, w: Packed, n: nat, v: seq<real>, b: nat, g: nat, l: nat, high: bool, i: nat)
    requires Blocks(w, n) && b < n && g < 4 && l < 32 && i == 256 * b + 64 * g + l + (if high then 32 else 0) && v == Decoded(fp, w, n)
    ensures i < |v| && v[i] == Weight(fp, w, n, b, g, l, high)
  {
    EntryIndex(fp, w, n, b, g, l, high);
  }

  // sum += low * x0; sum += high * x1;
  method AddProducts(start: real, low: real, high: real, x: seq<real>, i: nat, j: nat, ghost v: seq<real>) returns (sum: real)
    requires i < |v| && j < |v| && |v| <= |x| && v[i] == low && v[j] == high
    ensures sum == start + Products(v, x)(i) + Products(v, x)(j)
  {
    sum := start + low * x[i];
    sum := sum + high * x[j];
  }

  method AddPair(fp: Half -> real, w: Packed, n: nat, x: seq<real>, b: nat, g: nat, l: nat, a: nat, start: real,
                 d1: real, m1: real, d2: real, m2: real, ghost v: seq<real>) returns (sum: real)
    requires Blocks(w, n) && b < n && g < 4 && l < 32 && a == 256 * b + 64 * g && |v| <= |x| && v == Decoded(fp, w, n)
    requires d1 == Factors(fp, w, n, b, g, false).0 && m1 == Factors(fp, w, n, b, g, false).1
    requires d2 == Factors(fp, w, n, b, g, true).0 && m2 == Factors(fp, w, n, b, g, true).1
    ensures sum == start + Products(v, x)(a + l) + Products(v, x)(a + 32 + l)
  {
    var low, high := PairValues(fp, w, n, b, g, l, d1, m1, d2, m2);
    DecodedAt(fp, w, n, v, b, g, l, false, a + l);
    DecodedAt(fp, w, n, v, b, g, l, true, a + 32 + l);
    sum := AddProducts(start, low, high, x, a + l, a + 32 + l, v);
  }

  method ProductPairs(fp: Half -> real, w: Packed, n: nat, x: seq<real>, b: nat, g: nat, a: nat, start: real,
                      d1: real, m1: real, d2: real, m2: real, ghost v: seq<real>) returns (sum: real)
    requires Blocks(w, n) && b < n && g < 4 && a == 256 * b + 64 * g && |v| <= |x| && v == Decoded(fp, w, n)
    requires d1 == Factors(fp, w, n, b, g, false).0 && m1 == Factors(fp, w, n, b, g, false).1
    requires d2 == Factors(fp, w, n, b, g, true).0 && m2 == Factors(fp, w, n, b, g, true).1
    ensures sum == start + Sum(Products(v, x), a, 32) + Sum(Products(v, x), a + 32, 32)
  {
    sum := start;
    for l := 0 to 32
      invariant sum == start + Sum(Products(v, x), a, l) + Sum(Products(v, x), a + 32, l)
    {
      SumNext(Products(v, x), a, l);
      SumNext(Products(v, x), a + 32, l);
      sum := AddPair(fp, w, n, x, b, g, l, a, sum, d1, m1, d2, m2, v);
    }
  }

  lemma SumGroup(v: seq<real>, x: seq<real>, a: nat, k: nat)
    ensures SumTo(v, x, a + 2 * k) == SumTo(v, x, a) + Sum(Products(v, x), a, k) + Sum(Products(v, x), a + k, k)
  {
    SumSplit(Products(v, x), a, k, k);
    SumSplit(Products(v, x), 0, a, k + k);
  }

  // One group of the kernel's loops, from the sum of all entries before it.
  method ProductGroup(fp: Half -> real, w: Packed, n: nat, x: seq<real>, b: nat, g: nat, a: nat, start: real, d: real, dmin: real, ghost v: seq<real>)
      returns (sum: real)
    requires Blocks(w, n) && b < n && g < 4 && a == 256 * b + 64 * g && |v| <= |x| && v == Decoded(fp, w, n)
    requires b * BLOCK_BYTES + BLOCK_BYTES <= |w| && d == fp(HalfAt(w, b * BLOCK_BYTES)) && dmin == fp(HalfAt(w, b * BLOCK_BYTES + 2))
    requires start == SumTo(v, x, a)
    ensures sum == SumTo(v, x, a + 64)
  {
    var at, isIdx := b * BLOCK_BYTES, 2 * g;
    var d1, m1, d2, m2 := GroupFactors(fp, w, n, b, g, at, isIdx, d, dmin);
    sum := ProductPairs(fp, w, n, x, b, g, a, start, d1, m1, d2, m2, v);
    SumGroup(v, x, a, 32);
  }

  method ProductGroups(fp: Half -> real, w: Packed, n: nat, x: seq<real>, b: nat, a: nat, start: real, d: real, dmin: real, ghost v: seq<real>)
      returns (sum: real)
    requires Blocks(w, n) && b < n && a == 256 * b && |v| <= |x| && v == Decoded(fp, w, n)
    requires b * BLOCK_BYTES + BLOCK_BYTES <= |w| && d == fp(HalfAt(w, b * BLOCK_BYTES)) && dmin == fp(HalfAt(w, b * BLOCK_BYTES + 2))
    requires start == SumTo(v, x, a)
    ensures sum == SumTo(v, x, a + 256)
  {
    sum := start;
    var i := a;
    for g := 0 to 4
      invariant i == 256 * b + 64 * g && sum == SumTo(v, x, i)
    {
      sum := ProductGroup(fp, w, n, x, b, g, i, sum, d, dmin, v);
      i := i + 64;
    }
  }

  method ProductBlock(fp: Half -> real, w: Packed, n: nat, x: seq<real>, b: nat, a: nat, start: real, ghost v: seq<real>) returns (sum: real)
    requires Blocks(w, n) && b < n && a == 256 * b && |v| <= |x| && v == Decoded(fp, w, n)
    requires start == SumTo(v, x, a)
    ensures sum == SumTo(v, x, a + 256)
  {
    BlockFits(n, b);
    var d, dmin := fp(HalfAt(w, b * BLOCK_BYTES)), fp(HalfAt(w, b * BLOCK_BYTES + 2));
    sum := ProductGroups(fp, w, n, x, b, a, start, d, dmin, v);
  }

  method ProductRow(fp: Half -> real, w: Packed, n: nat, x: seq<real>) returns (sum: real)
    requires Blocks(w, n) && 256 * n <= |x|
    ensures sum == RowProduct(Decoded(fp, w, n), x)
  {
    ghost var v := Decoded(fp, w, n);
    sum := 0.0;
    var a := 0;
    for b := 0 to n
      invariant a == 256 * b && sum == SumTo(v, x, a)
    {
      sum := ProductBlock(fp, w, n, x, b, a, sum, v);
      a := a + 256;
    }
    assert a == |v|;
  }

  predicate RowFits(weights: seq<Byte>, n: nat, row: nat) {
    row * (n * BLOCK_BYTES) + n * BLOCK_BYTES <= |weights|
  }

  function RowBytes(weights: seq<Byte>, n: nat, row: nat): (w: Packed)
    requires RowFits(weights, n, row)
    ensures Blocks(w, n)
  {
    weights[row * (n * BLOCK_BYTES)..row * (n * BLOCK_BYTES) + n * BLOCK_BYTES]
  }

  // The kernel after its barrier, for one work-item: rows past the last write nothing, and
  // columns past the last whole block are not read.
  method MatvecItem(fp: Half -> real, weights: seq<Byte>, x: seq<real>, y: array<real>, nCols: nat, nRows: nat, row: nat)
    requires |weights| == nRows * (nCols / 256 * BLOCK_BYTES) && |x| == nCols && y.Length == nRows
    modifies y
    ensures row < nRows ==> RowFits(weights, nCols / 256, row)
    ensures row < nRows ==> y[row] == RowProduct(Decoded(fp, RowBytes(weights, nCols / 256, row), nCols / 256), x)
    ensures forall k :: 0 <= k < nRows && k != row ==> y[k] == old(y[k])
  {
    if row >= nRows {
      return;
    }
    NextMultiple(row, nRows, nCols / 256 * BLOCK_BYTES);
    var sum := ProductRow(fp, RowBytes(weights, nCols / 256, row), nCols / 256, x);
    y[row] := sum;
  }

  // ---- the same row under every decoder -----------------------------------------------------------------

  // The two half-precision numbers of every block have an exponent that is not all ones.
  ghost predicate Finite(w: Packed, n: nat)
    requires Blocks(w, n)
  {
    forall b: nat :: b < n ==> (BlockFits(n, b); Exponent(HalfAt(w, b * BLOCK_BYTES)) != 31 && Exponent(HalfAt(w, b * BLOCK_BYTES + 2)) != 31)
  }

  // The number that the reference reads.
  function ReferenceNumber(h: Half): real {
    match Reference(h)
    case Number(r) => r
    case NotANumber => 0.0
  }

  // Two readers agree on the two numbers that a block begins with.
  ghost predicate Agree(fp: Half -> real, fq: Half -> real, w: Packed, at: nat)
    requires at + 4 <= |w|
  {
    fp(HalfAt(w, at)) == fq(HalfAt(w, at)) && fp(HalfAt(w, at + 2)) == fq(HalfAt(w, at + 2))
  }

  lemma FiniteHalf(w: Packed, n: nat, b: nat)
    requires Blocks(w, n) && b < n && Finite(w, n) && b * BLOCK_BYTES + BLOCK_BYTES <= |w|
    ensures Agree(Kernel, ReferenceNumber, w, b * BLOCK_BYTES)
  {
    KernelAgreesExactly(HalfAt(w, b * BLOCK_BYTES));
    KernelAgreesExactly(HalfAt(w, b * BLOCK_BYTES + 2));
  }

  lemma SameFactors(fp: Half -> real, fq: Half -> real, w: Packed, at: nat, j: nat)
    requires at + BLOCK_BYTES <= |w| && j < 8 && Agree(fp, fq, w, at)
    ensures BlockFactors(fp, w, at, j).0 == BlockFactors(fq, w, at, j).0
    ensures BlockFactors(fp, w, at, j).1 == BlockFactors(fq, w, at, j).1
  {
  }

  lemma SameWeight(fp: Half -> real, fq: Half -> real, w: Packed, n: nat, b: nat, g: nat, l: nat, high: bool)
    requires Blocks(w, n) && b < n && g < 4 && l < 32
    requires Factors(fp, w, n, b, g, high).0 == Factors(fq, w, n, b, g, high).0
    requires Factors(fp, w, n, b, g, high).1 == Factors(fq, w, n, b, g, high).1
    ensures Weight(fp, w, n, b, g, l, high) == Weight(fq, w, n, b, g, l, high)
  {
  }

  lemma SameBothFactors(w: Packed, n: nat, b: nat, g: nat, high: bool)
    requires Blocks(w, n) && Finite(w, n) && b < n && g < 4
    ensures Factors(Kernel, w, n, b, g, high).0 == Factors(ReferenceNumber, w, n, b, g, high).0
    ensures Factors(Kernel, w, n, b, g, high).1 == Factors(ReferenceNumber, w, n, b, g, high).1
  {
    BlockFits(n, b);
    FiniteHalf(w, n, b);
    SameFactors(Kernel, ReferenceNumber, w, b * BLOCK_BYTES, if high then 2 * g + 1 else 2 * g);
  }

  lemma SameBlock(w: Packed, n: nat, b: nat, g: nat, l: nat, high: bool)
    requires Blocks(w, n) && Finite(w, n) && b < n && g < 4 && l < 32
    ensures Weight(Kernel, w, n, b, g, l, high) == Weight(ReferenceNumber, w, n, b, g, l, high)
  {
    SameBothFactors(w, n, b, g, high);
    SameWeight(Kernel, ReferenceNumber, w, n, b, g, l, high);
  }

  lemma SameEntry(w: Packed, n: nat, i: nat)
    requires Blocks(w, n) && Finite(w, n) && i < 256 * n
    ensures Entry(Kernel, w, n, i) == Entry(ReferenceNumber, w, n, i)
  {
    SameBlock(w, n, i / 256, i % 256 / 64, i % 32, i % 64 >= 32);
  }

  // The fused product is the product with the reference's decoding of the row.
  lemma DecodersAgree(w: Packed, n: nat)
    requires Blocks(w, n) && Finite(w, n)
    ensures Decoded(Kernel, w, n) == Decoded(ReferenceNumber, w, n)
  {
    forall i: nat | i < 256 * n ensures Decoded(Kernel, w, n)[i] == Decoded(ReferenceNumber, w, n)[i] {
      SameEntry(w, n, i);
    }
  }
}
