// Whole rows of Q4_K and Q6_K blocks, packed and decoded again: every weight of every block
// comes back, wherever the block lies in its row.
module QuantPacking {
  import opened Division
  import opened HalfFloat
  import Q4 = QuantQ4
  import Q6 = QuantQ6

  type Byte = bv8

  // ---- places in a row of blocks ------------------------------------------------------------------

  function Join(parts: seq<seq<Byte>>): seq<Byte> {
    if parts == [] then [] else parts[0] + Join(parts[1..])
  }

  ghost predicate Sized(parts: seq<seq<Byte>>, size: nat) {
    forall k :: 0 <= k < |parts| ==> |parts[k]| == size
  }

  lemma {:induction false} JoinAt(parts: seq<seq<Byte>>, size: nat, b: nat, i: nat)
    requires Sized(parts, size) && b < |parts| && i < size
    ensures |Join(parts)| == |parts| * size && b * size + i < |parts| * size
    ensures Join(parts)[b * size + i] == parts[b][i]
  {
    JoinLength(parts, size);
    NextMultiple(b, |parts|, size);
    if b > 0 {
      assert forall k :: 0 <= k < |parts[1..]| ==> parts[1..][k] == parts[k + 1];
      JoinAt(parts[1..], size, b - 1, i);
      assert b * size + i == size + ((b - 1) * size + i);
    }
  }

  lemma {:induction false} JoinLength(parts: seq<seq<Byte>>, size: nat)
    requires Sized(parts, size)
    ensures |Join(parts)| == |parts| * size
  {
    if parts != [] {
      assert forall k :: 0 <= k < |parts[1..]| ==> parts[1..][k] == parts[k + 1];
      JoinLength(parts[1..], size);
      assert |parts| * size == size + (|parts| - 1) * size;
    }
  }

  // ---- Q4_K ---------------------------------------------------------------------------------------

  // A half-precision number as its two bytes, the low one first.
  datatype HalfBytes = HalfBytes(low: Byte, high: Byte) {
    function Bits(): Half {
      (low as int) + 256 * (high as int)
    }

    function Bytes(): (p: seq<Byte>)
      ensures |p| == 2
    {
      [low, high]
    }
  }

  // Eight runs of 32 quants, each with its scale and minimum.
  datatype Block4 = Block4(d: HalfBytes, dmin: HalfBytes, scales: seq<Byte>, mins: seq<Byte>, quants: seq<Byte>)

  ghost predicate Block4Ok(k: Block4) {
    Q4.SixBits(k.scales) && Q4.SixBits(k.mins) && |k.quants| == 256 && forall i :: 0 <= i < 256 ==> k.quants[i] < 16
  }

  // The runs are paired: one in the low nibbles of 32 bytes, the next in the high ones.
  function QuantByte(q: seq<Byte>, j: nat): Byte
    requires |q| == 256 && j < 128
  {
    Q4.PackNibbles(q[64 * (j / 32) + j % 32], q[64 * (j / 32) + 32 + j % 32])
  }

  function PackQuants(q: seq<Byte>): (p: seq<Byte>)
    requires |q| == 256
    ensures |p| == 128
  {
    seq(128, j requires 0 <= j < 128 => QuantByte(q, j))
  }

  function Pack4(k: Block4): (p: seq<Byte>)
    requires Block4Ok(k)
    ensures |p| == Q4.BLOCK_BYTES
  {
    k.d.Bytes() + k.dmin.Bytes() + (Q4.PackScales(k.scales, k.mins) + PackQuants(k.quants))
  }

  // Weight i of the block.
  function Weight4(fp: Half -> real, k: Block4, i: nat): real
    requires Block4Ok(k) && i < 256
  {
    fp(k.d.Bits()) * Q4.Float(k.scales[i / 32]) * Q4.Float(k.quants[i]) - fp(k.dmin.Bits()) * Q4.Float(k.mins[i / 32])
  }

  function PackRow4(ks: seq<Block4>): seq<Byte>
    requires forall b :: 0 <= b < |ks| ==> Block4Ok(ks[b])
  {
    Join(seq(|ks|, b requires 0 <= b < |ks| => Pack4(ks[b])))
  }

  // The bytes of block b lie at its place in the row.
  lemma Row4At(ks: seq<Block4>, b: nat)
    requires (forall b :: 0 <= b < |ks| ==> Block4Ok(ks[b])) && b < |ks|
    ensures Q4.Blocks(PackRow4(ks), |ks|)
    ensures b * Q4.BLOCK_BYTES + Q4.BLOCK_BYTES <= |PackRow4(ks)|
    ensures PackRow4(ks)[b * Q4.BLOCK_BYTES..b * Q4.BLOCK_BYTES + Q4.BLOCK_BYTES] == Pack4(ks[b])
  {
    var parts, w, at := seq(|ks|, b requires 0 <= b < |ks| => Pack4(ks[b])), PackRow4(ks), b * Q4.BLOCK_BYTES;
    JoinLength(parts, Q4.BLOCK_BYTES);
    Q4.BlockFits(|ks|, b);
    forall i | 0 <= i < Q4.BLOCK_BYTES ensures w[at..at + Q4.BLOCK_BYTES][i] == Pack4(ks[b])[i] {
      JoinAt(parts, Q4.BLOCK_BYTES, b, i);
    }
  }

  // Places inside a block.
  lemma Numbers4(w: seq<Byte>, at: nat, k: Block4)
    requires Block4Ok(k) && at + Q4.BLOCK_BYTES <= |w| && w[at..at + Q4.BLOCK_BYTES] == Pack4(k)
    ensures Q4.HalfAt(w, at) == k.d.Bits() && Q4.HalfAt(w, at + 2) == k.dmin.Bits()
  {
    var p := Pack4(k);
    assert p[0] == k.d.low && p[1] == k.d.high && p[2] == k.dmin.low && p[3] == k.dmin.high;
    assert w[at] == p[0] && w[at + 1] == p[1] && w[at + 2] == p[2] && w[at + 3] == p[3];
  }

  lemma Scales4(w: seq<Byte>, at: nat, k: Block4, j: nat)
    requires Block4Ok(k) && at + Q4.BLOCK_BYTES <= |w| && w[at..at + Q4.BLOCK_BYTES] == Pack4(k) && j < 8
    ensures Q4.ScaleMin(w, at + 4, j) == (k.scales[j], k.mins[j])
  {
    var head := k.d.Bytes() + k.dmin.Bytes();
    var before, after := w[..at] + head, PackQuants(k.quants) + w[at + Q4.BLOCK_BYTES..];
    assert w == w[..at] + Pack4(k) + w[at + Q4.BLOCK_BYTES..];
    assert w == before + Q4.PackScales(k.scales, k.mins) + after;
    Q4.ScalesRoundTrip(k.scales, k.mins, before, after, j);
  }

  lemma Quant4(w: seq<Byte>, at: nat, k: Block4, j: nat)
    requires Block4Ok(k) && at + Q4.BLOCK_BYTES <= |w| && w[at..at + Q4.BLOCK_BYTES] == Pack4(k) && j < 128
    ensures w[at + 16 + j] == QuantByte(k.quants, j)
  {
    assert Pack4(k)[16 + j] == PackQuants(k.quants)[j];
    assert w[at..at + Q4.BLOCK_BYTES][16 + j] == w[at + (16 + j)];
  }

  // Weight i is number l of half h of group g, and run j is that half.
  ghost predicate Place4(i: nat, g: nat, l: nat, high: bool, j: nat) {
    && i < 256 && g < 4 && l < 32 && j < 8
    && i == 64 * g + l + (if high then 32 else 0) && j == (if high then 2 * g + 1 else 2 * g) && i / 32 == j
  }

  lemma PlaceOf4(i: nat)
    requires i < 256
    ensures Place4(i, i / 64, i % 32, i % 64 >= 32, i / 32)
  {
  }

  lemma Nibble4(q: seq<Byte>, i: nat, g: nat, l: nat, high: bool, j: nat)
    requires |q| == 256 && Place4(i, g, l, high, j) && forall i :: 0 <= i < 256 ==> q[i] < 16
    ensures Q4.Nibble(QuantByte(q, 32 * g + l), high) == q[i]
  {
    DivMod(g, l, 32);
    Q4.NibblesRoundTrip(q[64 * g + l], q[64 * g + 32 + l]);
  }

  lemma BlockFactors4(fp: Half -> real, w: seq<Byte>, at: nat, j: nat, k: Block4)
    requires Block4Ok(k) && at + Q4.BLOCK_BYTES <= |w| && w[at..at + Q4.BLOCK_BYTES] == Pack4(k) && j < 8
    ensures Q4.BlockFactors(fp, w, at, j).0 == fp(k.d.Bits()) * Q4.Float(k.scales[j])
    ensures Q4.BlockFactors(fp, w, at, j).1 == fp(k.dmin.Bits()) * Q4.Float(k.mins[j])
  {
    hide Pack4, Q4.HalfAt, Q4.ScaleMin;
    Numbers4(w, at, k);
    Scales4(w, at, k, j);
  }

  // The block of number b of a row.
  ghost predicate Lies4(w: seq<Byte>, n: nat, b: nat, k: Block4) {
    Block4Ok(k) && Q4.Blocks(w, n) && b < n && b * Q4.BLOCK_BYTES + Q4.BLOCK_BYTES <= |w| && w[b * Q4.BLOCK_BYTES..b * Q4.BLOCK_BYTES + Q4.BLOCK_BYTES] == Pack4(k)
  }

  lemma Factors4(fp: Half -> real, w: seq<Byte>, n: nat, b: nat, g: nat, high: bool, j: nat, k: Block4)
    requires Lies4(w, n, b, k) && g < 4 && j == if high then 2 * g + 1 else 2 * g
    ensures Q4.Factors(fp, w, n, b, g, high).0 == fp(k.d.Bits()) * Q4.Float(k.scales[j])
    ensures Q4.Factors(fp, w, n, b, g, high).1 == fp(k.dmin.Bits()) * Q4.Float(k.mins[j])
  {
    hide Pack4, Q4.BlockFactors;
    BlockFactors4(fp, w, b * Q4.BLOCK_BYTES, j, k);
  }

  lemma QuantOf4(w: seq<Byte>, n: nat, b: nat, g: nat, l: nat, k: Block4)
    requires Lies4(w, n, b, k) && g < 4 && l < 32
    ensures Q4.Quant(w, n, b, g, l) == QuantByte(k.quants, 32 * g + l)
  {
    hide Pack4, QuantByte;
    Quant4(w, b * Q4.BLOCK_BYTES, k, 32 * g + l);
  }

  lemma WeightOf4(fp: Half -> real, w: seq<Byte>, n: nat, b: nat, i: nat, g: nat, l: nat, high: bool, j: nat, k: Block4)
    requires Lies4(w, n, b, k) && Place4(i, g, l, high, j)
    ensures Q4.Weight(fp, w, n, b, g, l, high) == Weight4(fp, k, i)
  {
    hide Pack4, Q4.Factors, Q4.Nibble, Q4.Quant, QuantByte, Q4.Float;
    Factors4(fp, w, n, b, g, high, j, k);
    QuantOf4(w, n, b, g, l, k);
    Nibble4(k.quants, i, g, l, high, j);
  }

  // Packing any blocks and decoding the row gives every weight of every block.
  lemma Row4RoundTrip(fp: Half -> real, ks: seq<Block4>, b: nat, i: nat)
    requires (forall b :: 0 <= b < |ks| ==> Block4Ok(ks[b])) && b < |ks| && i < 256
    ensures Q4.Blocks(PackRow4(ks), |ks|) && 256 * b + i < |Q4.Decoded(fp, PackRow4(ks), |ks|)|
    ensures Q4.Decoded(fp, PackRow4(ks), |ks|)[256 * b + i] == Weight4(fp, ks[b], i)
  {
    hide PackRow4, Q4.Weight, Weight4, Pack4;
    var w, g, l, high := PackRow4(ks), i / 64, i % 32, i % 64 >= 32;
    PlaceOf4(i);
    Row4At(ks, b);
    Q4.EntryIndex(fp, w, |ks|, b, g, l, high);
    assert 256 * b + i == 256 * b + 64 * g + l + if high then 32 else 0;
    WeightOf4(fp, w, |ks|, b, i, g, l, high, i / 32, ks[b]);
  }

  // ---- Q6_K ---------------------------------------------------------------------------------------

  // Sixteen runs of 16 six-bit codes, each with a signed scale.
  datatype Block6 = Block6(d: HalfBytes, scales: seq<Byte>, codes: seq<Byte>)

  ghost predicate Block6Ok(k: Block6) {
    |k.scales| == 16 && |k.codes| == 256 && forall i :: 0 <= i < 256 ==> k.codes[i] < 64
  }

  // Code l of lane k of half h.
  function CodeOf(c: seq<Byte>, h: nat, k: nat, l: nat): Byte
    requires |c| == 256 && h < 2 && k < 4 && l < 32
  {
    c[128 * h + 32 * k + l]
  }

  // Low nibbles: lanes 0 and 2 share a byte, and so do lanes 1 and 3.
  function LowByte(c: seq<Byte>, j: nat): Byte
    requires |c| == 256 && j < 128
  {
    Q6.PackQl(CodeOf(c, j / 64, j % 64 / 32, j % 32), CodeOf(c, j / 64, j % 64 / 32 + 2, j % 32))
  }

  // High bits: all four lanes share a byte.
  function HighByte(c: seq<Byte>, j: nat): Byte
    requires |c| == 256 && j < 64
  {
    Q6.PackQh(CodeOf(c, j / 32, 0, j % 32), CodeOf(c, j / 32, 1, j % 32), CodeOf(c, j / 32, 2, j % 32), CodeOf(c, j / 32, 3, j % 32))
  }

  function PackLow(c: seq<Byte>): (p: seq<Byte>)
    requires |c| == 256
    ensures |p| == 128
  {
    seq(128, j requires 0 <= j < 128 => LowByte(c, j))
  }

  function PackHigh(c: seq<Byte>): (p: seq<Byte>)
    requires |c| == 256
    ensures |p| == 64
  {
    seq(64, j requires 0 <= j < 64 => HighByte(c, j))
  }

  function Pack6(k: Block6): (p: seq<Byte>)
    requires Block6Ok(k)
    ensures |p| == Q6.BLOCK_BYTES
  {
    PackLow(k.codes) + PackHigh(k.codes) + (k.scales + k.d.Bytes())
  }

  // Weight i of the block.
  function Weight6(fp: Half -> real, k: Block6, i: nat): real
    requires Block6Ok(k) && i < 256
  {
    Q6.Scaled(fp(k.d.Bits()), Q6.SignedByte(k.scales[i / 16]) as real, (k.codes[i] as int - 32) as real)
  }

  function PackRow6(ks: seq<Block6>): seq<Byte>
    requires forall b :: 0 <= b < |ks| ==> Block6Ok(ks[b])
  {
    Join(seq(|ks|, b requires 0 <= b < |ks| => Pack6(ks[b])))
  }

  ghost predicate Lies6(w: seq<Byte>, n: nat, b: nat, at: nat, k: Block6) {
    Block6Ok(k) && Q6.Blocks(w, n) && b < n && at == b * Q6.BLOCK_BYTES && at + Q6.BLOCK_BYTES <= |w| && w[at..at + Q6.BLOCK_BYTES] == Pack6(k)
  }

  lemma Row6At(ks: seq<Block6>, b: nat)
    requires (forall b :: 0 <= b < |ks| ==> Block6Ok(ks[b])) && b < |ks|
    ensures Lies6(PackRow6(ks), |ks|, b, b * Q6.BLOCK_BYTES, ks[b])
  {
    var parts, w, at := seq(|ks|, b requires 0 <= b < |ks| => Pack6(ks[b])), PackRow6(ks), b * Q6.BLOCK_BYTES;
    JoinLength(parts, Q6.BLOCK_BYTES);
    Q6.BlockFits(|ks|, b);
    forall i | 0 <= i < Q6.BLOCK_BYTES ensures w[at..at + Q6.BLOCK_BYTES][i] == Pack6(ks[b])[i] {
      JoinAt(parts, Q6.BLOCK_BYTES, b, i);
    }
  }

  lemma ByteOf6(w: seq<Byte>, n: nat, b: nat, at: nat, k: Block6, i: nat)
    requires Lies6(w, n, b, at, k) && i < Q6.BLOCK_BYTES
    ensures w[at + i] == Pack6(k)[i]
  {
    assert w[at..at + Q6.BLOCK_BYTES][i] == w[at + i];
  }

  lemma Number6(w: seq<Byte>, n: nat, b: nat, at: nat, k: Block6)
    requires Lies6(w, n, b, at, k)
    ensures Q4.HalfAt(w, at + 208) == k.d.Bits()
  {
    ByteOf6(w, n, b, at, k, 208);
    ByteOf6(w, n, b, at, k, 209);
    assert Pack6(k)[208] == k.d.low && Pack6(k)[209] == k.d.high;
  }

  // Runs of 16 alternate between the lanes of a half.
  function RunOf(h: nat, lane: nat, l: nat): (j: nat)
    requires h < 2 && lane < 4 && l < 32
    ensures j < 16
  {
    8 * h + l / 16 + 2 * lane
  }

  lemma Scale6(w: seq<Byte>, n: nat, b: nat, at: nat, k: Block6, h: nat, lane: nat, l: nat)
    requires Lies6(w, n, b, at, k) && h < 2 && lane < 4 && l < 32
    ensures Q6.BlockScale(w, at, h, lane, l) == Q6.SignedByte(k.scales[RunOf(h, lane, l)]) as real
  {
    var j := RunOf(h, lane, l);
    ByteOf6(w, n, b, at, k, 192 + j);
    assert Pack6(k)[192 + j] == k.scales[j];
  }

  lemma Low6(w: seq<Byte>, n: nat, b: nat, at: nat, k: Block6, j: nat)
    requires Lies6(w, n, b, at, k) && j < 128
    ensures w[at + j] == LowByte(k.codes, j)
  {
    ByteOf6(w, n, b, at, k, j);
    assert Pack6(k)[j] == PackLow(k.codes)[j];
  }

  lemma High6(w: seq<Byte>, n: nat, b: nat, at: nat, k: Block6, j: nat)
    requires Lies6(w, n, b, at, k) && j < 64
    ensures w[at + 128 + j] == HighByte(k.codes, j)
  {
    ByteOf6(w, n, b, at, k, 128 + j);
    assert Pack6(k)[128 + j] == PackHigh(k.codes)[j];
  }

  lemma LanePlaces(h: nat, l: nat)
    requires h < 2 && l < 32
    ensures var j := 64 * h + l; j / 64 == h && j % 64 / 32 == 0 && j % 32 == l
    ensures var j := 64 * h + l + 32; j / 64 == h && j % 64 / 32 == 1 && j % 32 == l
    ensures var j := 32 * h + l; j / 32 == h && j % 32 == l
  {
  }

  lemma Code6(w: seq<Byte>, n: nat, b: nat, at: nat, k: Block6, h: nat, lane: nat, l: nat)
    requires Lies6(w, n, b, at, k) && h < 2 && lane < 4 && l < 32
    ensures Q6.Code(w[at + 64 * h + l], w[at + 64 * h + l + 32], w[at + 128 + 32 * h + l], lane) == CodeOf(k.codes, h, lane, l)
  {
    hide Pack6, Q6.Code;
    LanePlaces(h, l);
    Low6(w, n, b, at, k, 64 * h + l);
    Low6(w, n, b, at, k, 64 * h + l + 32);
    High6(w, n, b, at, k, 32 * h + l);
    Q6.CodesRoundTrip(CodeOf(k.codes, h, 0, l), CodeOf(k.codes, h, 1, l), CodeOf(k.codes, h, 2, l), CodeOf(k.codes, h, 3, l));
  }

  // Weight i is number l of lane k of half h.
  ghost predicate Place6(i: nat, h: nat, k: nat, l: nat) {
    i < 256 && h < 2 && k < 4 && l < 32 && i == 128 * h + 32 * k + l && i / 16 == RunOf(h, k, l)
  }

  lemma PlaceOf6(i: nat)
    requires i < 256
    ensures Place6(i, i / 128, i % 128 / 32, i % 32)
  {
  }

  lemma CodeValue6(w: seq<Byte>, n: nat, b: nat, at: nat, k: Block6, i: nat, h: nat, lane: nat, l: nat)
    requires Lies6(w, n, b, at, k) && Place6(i, h, lane, l)
    ensures Q6.BlockCode(w, at, h, lane, l) == (k.codes[i] as int - 32) as real
  {
    hide Pack6, Q6.Code;
    Code6(w, n, b, at, k, h, lane, l);
  }

  lemma WeightOf6(fp: Half -> real, w: seq<Byte>, n: nat, b: nat, at: nat, k: Block6, i: nat, h: nat, lane: nat, l: nat)
    requires Lies6(w, n, b, at, k) && Place6(i, h, lane, l)
    ensures Q6.BlockWeight(fp, w, at, h, lane, l) == Weight6(fp, k, i)
  {
    hide Pack6, Q6.SignedByte, Q6.BlockScale, Q6.BlockCode, Q6.Scaled, Q4.HalfAt, RunOf;
    Number6(w, n, b, at, k);
    Scale6(w, n, b, at, k, h, lane, l);
    CodeValue6(w, n, b, at, k, i, h, lane, l);
  }

  lemma Entry6(fp: Half -> real, w: seq<Byte>, n: nat, b: nat, i: nat, h: nat, k: nat, l: nat)
    requires Q6.Blocks(w, n) && b < n && Place6(i, h, k, l)
    ensures 256 * b + i < |Q6.Decoded(fp, w, n)| && Q6.Decoded(fp, w, n)[256 * b + i] == Q6.Weight(fp, w, n, b, h, k, l)
  {
    hide Q6.Decoded, Q6.Weight;
    Q6.DecodedAt(fp, w, n, Q6.Decoded(fp, w, n), b, h, k, l, 256 * b + i);
  }

  // The same for Q6_K.
  lemma Row6RoundTrip(fp: Half -> real, ks: seq<Block6>, b: nat, i: nat)
    requires (forall b :: 0 <= b < |ks| ==> Block6Ok(ks[b])) && b < |ks| && i < 256
    ensures Q6.Blocks(PackRow6(ks), |ks|) && 256 * b + i < |Q6.Decoded(fp, PackRow6(ks), |ks|)|
    ensures Q6.Decoded(fp, PackRow6(ks), |ks|)[256 * b + i] == Weight6(fp, ks[b], i)
  {
    hide PackRow6, Q6.Decoded, Q6.BlockWeight, Weight6, Pack6, Place6;
    var w, h, k, l := PackRow6(ks), i / 128, i % 128 / 32, i % 32;
    PlaceOf6(i);
    Row6At(ks, b);
    Entry6(fp, w, |ks|, b, i, h, k, l);
    WeightOf6(fp, w, |ks|, b, b * Q6.BLOCK_BYTES, ks[b], i, h, k, l);
  }
}
