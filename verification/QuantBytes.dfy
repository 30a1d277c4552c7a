// Quantised weights (python/xecuda/kernels.py and tools/_offref.py) said of the bytes of a row, in
// quotients and remainders, and the products of a row as plain sums.
module QuantBytes {
  import opened Barriers
  import opened NormKernels
  import opened NormLaws
  import opened HalfFloat
  import opened MatvecSchedules
  import RangeSums
  import Q4 = QuantQ4
  import Q6 = QuantQ6

  type Byte = bv8

  // ---- half-precision numbers ----------------------------------------------------------------------

  // The sign bit negates.
  lemma SignNegates(h: Half)
    requires h < 32768
    ensures Reference(h).Number? <==> Reference(h + 32768).Number?
    ensures Reference(h).Number? ==> Reference(h + 32768) == Number(-Reference(h).r)
  {
    assert Exponent(h + 32768) == Exponent(h) && Mantissa(h + 32768) == Mantissa(h);
  }

  // The smallest numbers are multiples of 2^-24.
  lemma SmallNumbers(h: Half)
    requires h < 1024
    ensures Reference(h) == Number((h as real) / 16777216.0)
  {
    SmallPowers(-14);
    SmallQuotient(h as real, Pow2(-14));
  }

  lemma SmallQuotient(m: real, p: real)
    requires p * 16384.0 == 1.0
    ensures m / 1024.0 * p == m / 16777216.0
  {
    assert p == 1.0 / 16384.0;
  }

  // 0x3C00 is one; the next exponent doubles; the mantissa adds its share of 1024.
  lemma LargerNumbers(h: Half, m: nat)
    requires m < 1024
    ensures h == 0x3C00 ==> Reference(h) == Number(1.0)
    ensures 1024 <= h < 30 * 1024 ==> Reference(h).Number? && Reference(h + 1024) == Number(2.0 * Reference(h).r)
    ensures 1024 <= h < 31 * 1024 && h % 1024 == 0 ==> Reference(h).Number? && Reference(h + m) == Number(Reference(h).r * (1.0 + (m as real) / 1024.0))
  {
    hide Reference;
    if h == 0x3C00 { One(h); }
    if 1024 <= h < 30 * 1024 { NextExponent(h); }
    if 1024 <= h < 31 * 1024 && h % 1024 == 0 { AddMantissa(h, m); }
  }

  lemma One(h: Half)
    requires h == 0x3C00
    ensures Reference(h) == Number(1.0)
  {
  }

  lemma NextExponent(h: Half)
    requires 1024 <= h < 30 * 1024
    ensures Reference(h).Number? && Reference(h + 1024) == Number(2.0 * Reference(h).r)
  {
    hide Sign, Exponent, Mantissa, Pow2;
    var e, m := Exponent(h), Mantissa(h);
    NextFields(h);
    Pow2Step(e - 15);
    Doubled(1.0 + (m as real) / 1024.0, Pow2(e - 15));
  }

  lemma NextFields(h: Half)
    requires 1024 <= h < 30 * 1024
    ensures Sign(h) == 0 && Sign(h + 1024) == 0 && 0 < Exponent(h) < 30 && Exponent(h + 1024) == Exponent(h) + 1 && Mantissa(h + 1024) == Mantissa(h)
  {
  }

  lemma Doubled(x: real, p: real)
    ensures x * (2.0 * p) == 2.0 * (x * p)
  {
  }

  lemma AddMantissa(h: Half, m: nat)
    requires 1024 <= h < 31 * 1024 && h % 1024 == 0 && m < 1024
    ensures Reference(h).Number? && Reference(h + m) == Number(Reference(h).r * (1.0 + (m as real) / 1024.0))
  {
    assert Sign(h) == 0 && Sign(h + m) == 0 && Exponent(h + m) == Exponent(h) && Mantissa(h) == 0 && Mantissa(h + m) == m;
  }

  // An infinity counts as one, and nothing else with that exponent is a number.
  lemma SpecialNumbers(h: Half)
    requires 31 * 1024 <= h < 32768
    ensures Reference(h) == if h == 31 * 1024 then Number(1.0) else NotANumber
  {
  }

  // ---- six-bit scales and nibbles --------------------------------------------------------------------

  lemma LowBits(b: Byte)
    ensures b & 63 == b % 64 && b & 0xF == b % 16 && b & 3 == b % 4
  {
  }

  lemma HighBits(b: Byte)
    ensures b >> 4 == b / 16 && b >> 6 == b / 64 && b >> 2 == b / 4
  {
  }

  lemma Joined(low: Byte, high: Byte)
    requires low < 16 && high < 4
    ensures low | (high << 4) == low + 16 * high
  {
  }

  lemma Remainders(b: Byte)
    ensures b % 16 < 16 && b / 16 < 16 && b % 4 < 4 && b / 64 < 4
  {
  }

  // Scale and minimum j of the block at `at`, which has 144 bytes.
  function Scale4(w: seq<Byte>, at: nat, j: nat): Byte
    requires at + 144 <= |w| && j < 8
  {
    if j < 4 then w[at + 4 + j] % 64 else w[at + 8 + j] % 16 + 16 * (w[at + j] / 64)
  }

  function Least4(w: seq<Byte>, at: nat, j: nat): Byte
    requires at + 144 <= |w| && j < 8
  {
    if j < 4 then w[at + 8 + j] % 64 else w[at + 8 + j] / 16 + 16 * (w[at + 4 + j] / 64)
  }

  lemma ScaleBytes(w: seq<Byte>, at: nat, j: nat)
    requires at + 144 <= |w| && j < 8
    ensures Q4.ScaleMin(w, at + 4, j) == (Scale4(w, at, j), Least4(w, at, j))
  {
    if j < 4 {
      LowBits(w[at + 4 + j]);
      LowBits(w[at + 8 + j]);
    } else {
      var b, s, m := w[at + 8 + j], w[at + j], w[at + 4 + j];
      LowBits(b);
      HighBits(b);
      HighBits(s);
      HighBits(m);
      Remainders(b);
      Remainders(s);
      Remainders(m);
      Joined(b % 16, s / 64);
      Joined(b / 16, m / 64);
    }
  }

  // ---- a weight of a row -------------------------------------------------------------------------------

  // The number stored in two bytes, the low one first.
  function Word(w: seq<Byte>, at: nat): Half
    requires at + 2 <= |w|
  {
    (w[at] as int) + 256 * (w[at + 1] as int)
  }

  function Real(b: Byte): real {
    b as int as real
  }

  // Number l of run j: even runs are the low nibbles of 32 bytes, odd runs the high ones.
  function Quant4(w: seq<Byte>, at: nat, j: nat, l: nat): Byte
    requires at + 144 <= |w| && j < 8 && l < 32
  {
    var byte := w[at + 16 + 32 * (j / 2) + l];
    if j % 2 == 0 then byte % 16 else byte / 16
  }

  // Weight l of run j of the block of Q4_K at `at`: factor times scale times number, less the
  // second factor times the minimum.
  function Weight4(fp: Half -> real, w: seq<Byte>, at: nat, j: nat, l: nat): real
    requires at + 144 <= |w| && j < 8 && l < 32
  {
    fp(Word(w, at)) * Real(Scale4(w, at, j)) * Real(Quant4(w, at, j, l)) - fp(Word(w, at + 2)) * Real(Least4(w, at, j))
  }

  lemma NibbleBytes(b: Byte)
    ensures Q4.Nibble(b, false) == b % 16 && Q4.Nibble(b, true) == b / 16
  {
    LowBits(b);
    HighBits(b);
  }

  lemma QuantBytes4(w: seq<Byte>, n: nat, b: nat, j: nat, l: nat)
    requires Q4.Blocks(w, n) && b < n && j < 8 && l < 32 && 144 * b + 144 <= |w|
    ensures Q4.Nibble(Q4.Quant(w, n, b, j / 2, l), j % 2 == 1) == Quant4(w, 144 * b, j, l)
  {
    Q4.BlockFits(n, b);
    NibbleBytes(w[144 * b + 16 + 32 * (j / 2) + l]);
  }

  lemma WordIs(w: seq<Byte>, at: nat)
    requires at + 2 <= |w|
    ensures Q4.HalfAt(w, at) == Word(w, at)
  {
  }

  lemma FloatIs(b: Byte)
    ensures Q4.Float(b) == Real(b)
  {
  }

  lemma BlockFactorBytes(fp: Half -> real, w: seq<Byte>, at: nat, j: nat)
    requires at + 144 <= |w| && j < 8
    ensures Q4.BlockFactors(fp, w, at, j).0 == fp(Word(w, at)) * Real(Scale4(w, at, j))
    ensures Q4.BlockFactors(fp, w, at, j).1 == fp(Word(w, at + 2)) * Real(Least4(w, at, j))
  {
    hide Q4.ScaleMin, Q4.HalfAt, Word, Q4.Float, Real, Scale4, Least4;
    ScaleBytes(w, at, j);
    WordIs(w, at);
    WordIs(w, at + 2);
    FloatIs(Scale4(w, at, j));
    FloatIs(Least4(w, at, j));
  }

  lemma FactorBytes(fp: Half -> real, w: seq<Byte>, n: nat, b: nat, j: nat)
    requires Q4.Blocks(w, n) && b < n && j < 8 && 144 * b + 144 <= |w|
    ensures Q4.Factors(fp, w, n, b, j / 2, j % 2 == 1) == Q4.BlockFactors(fp, w, 144 * b, j)
  {
    hide Q4.BlockFactors;
  }

  lemma WeightBytes4(fp: Half -> real, w: seq<Byte>, n: nat, b: nat, j: nat, l: nat)
    requires Q4.Blocks(w, n) && b < n && j < 8 && l < 32 && 144 * b + 144 <= |w|
    ensures Q4.Weight(fp, w, n, b, j / 2, l, j % 2 == 1) == Weight4(fp, w, 144 * b, j, l)
  {
    hide Q4.Factors, Q4.BlockFactors, Q4.Nibble, Q4.Quant, Q4.Float, Word, Scale4, Least4, Quant4, Real;
    FactorBytes(fp, w, n, b, j);
    BlockFactorBytes(fp, w, 144 * b, j);
    QuantBytes4(w, n, b, j, l);
    FloatIs(Quant4(w, 144 * b, j, l));
  }

  // Every entry of a decoded row of Q4_K is that weight of its block.
  lemma Decoded4(fp: Half -> real, w: seq<Byte>, n: nat, b: nat, j: nat, l: nat)
    requires Q4.Blocks(w, n) && b < n && j < 8 && l < 32
    ensures 144 * b + 144 <= |w| && 256 * b + 32 * j + l < |Q4.Decoded(fp, w, n)|
    ensures Q4.Decoded(fp, w, n)[256 * b + 32 * j + l] == Weight4(fp, w, 144 * b, j, l)
  {
    hide Q4.Weight, Weight4;
    Q4.BlockFits(n, b);
    WeightBytes4(fp, w, n, b, j, l);
    assert 256 * b + 32 * j + l == 256 * b + 64 * (j / 2) + l + (if j % 2 == 1 then 32 else 0);
    Q4.DecodedAt(fp, w, n, Q4.Decoded(fp, w, n), b, j / 2, l, j % 2 == 1, 256 * b + 32 * j + l);
  }

  // Code l of lane k of half h of the block of Q6_K at `at`, which has 210 bytes.
  function Code6(w: seq<Byte>, at: nat, h: nat, k: nat, l: nat): Byte
    requires at + 210 <= |w| && h < 2 && k < 4 && l < 32
  {
    var low, next, high := w[at + 64 * h + l], w[at + 64 * h + l + 32], w[at + 128 + 32 * h + l];
    if k == 0 then low % 16 + 16 * (high % 4)
    else if k == 1 then next % 16 + 16 * (high / 4 % 4)
    else if k == 2 then low / 16 + 16 * (high / 16 % 4)
    else next / 16 + 16 * (high / 64)
  }

  // Its scale, a signed byte.
  function Scale6(w: seq<Byte>, at: nat, h: nat, k: nat, l: nat): int
    requires at + 210 <= |w| && h < 2 && k < 4 && l < 32
  {
    var b := w[at + 192 + 8 * h + 2 * k + l / 16] as int;
    if b < 128 then b else b - 256
  }

  // Factor times scale times the code less 32.
  function Weight6(fp: Half -> real, w: seq<Byte>, at: nat, h: nat, k: nat, l: nat): real
    requires at + 210 <= |w| && h < 2 && k < 4 && l < 32
  {
    fp(Word(w, at + 208)) * (Scale6(w, at, h, k, l) as real) * ((Code6(w, at, h, k, l) as int - 32) as real)
  }

  lemma CodeBits(low: Byte, next: Byte, high: Byte, k: nat)
    requires k < 4
    ensures Q6.Code(low, next, high, k) == if k == 0 then low % 16 + 16 * (high % 4) else if k == 1 then next % 16 + 16 * (high / 4 % 4)
              else if k == 2 then low / 16 + 16 * (high / 16 % 4) else next / 16 + 16 * (high / 64)
  {
  }

  lemma CodeBytes(w: seq<Byte>, at: nat, h: nat, k: nat, l: nat)
    requires at + 210 <= |w| && h < 2 && k < 4 && l < 32
    ensures Q6.BlockCode(w, at, h, k, l) == (Code6(w, at, h, k, l) as int - 32) as real
  {
    hide Q6.Code;
    CodeBits(w[at + 64 * h + l], w[at + 64 * h + l + 32], w[at + 128 + 32 * h + l], k);
  }

  lemma SignedBytes(w: seq<Byte>, at: nat, h: nat, k: nat, l: nat)
    requires at + 210 <= |w| && h < 2 && k < 4 && l < 32
    ensures Q6.BlockScale(w, at, h, k, l) == Scale6(w, at, h, k, l) as real
  {
  }

  lemma WeightBytes6(fp: Half -> real, w: seq<Byte>, at: nat, h: nat, k: nat, l: nat)
    requires at + 210 <= |w| && h < 2 && k < 4 && l < 32
    ensures Q6.BlockWeight(fp, w, at, h, k, l) == Weight6(fp, w, at, h, k, l)
  {
    hide Q6.BlockScale, Q6.BlockCode, Scale6, Code6, Word, Q4.HalfAt;
    CodeBytes(w, at, h, k, l);
    SignedBytes(w, at, h, k, l);
    WordIs(w, at + 208);
  }

  lemma Decoded6(fp: Half -> real, w: seq<Byte>, n: nat, b: nat, h: nat, k: nat, l: nat)
    requires Q6.Blocks(w, n) && b < n && h < 2 && k < 4 && l < 32
    ensures 210 * b + 210 <= |w| && 256 * b + 128 * h + 32 * k + l < |Q6.Decoded(fp, w, n)|
    ensures Q6.Decoded(fp, w, n)[256 * b + 128 * h + 32 * k + l] == Weight6(fp, w, 210 * b, h, k, l)
  {
    hide Weight6, Q6.BlockWeight;
    Q6.BlockFits(n, b);
    WeightBytes6(fp, w, 210 * b, h, k, l);
    Q6.DecodedAt(fp, w, n, Q6.Decoded(fp, w, n), b, h, k, l, 256 * b + 128 * h + 32 * k + l);
  }

  // ---- the product of a row ----------------------------------------------------------------------------------

  // The bytes of a row follow those of the rows before it.
  lemma RowPlace4(weights: seq<Byte>, n: nat, row: nat, i: nat)
    requires Q4.RowFits(weights, n, row) && i < 144 * n
    ensures row * (144 * n) + i < |weights| && Q4.RowBytes(weights, n, row)[i] == weights[row * (144 * n) + i]
  {
    var at := row * (n * 144);
    assert n * 144 == 144 * n && at == row * (144 * n);
    assert weights[at..at + n * 144][i] == weights[at + i];
  }

  lemma RowPlace6(weights: seq<Byte>, n: nat, row: nat, i: nat)
    requires Q6.RowFits(weights, n, row) && i < 210 * n
    ensures row * (210 * n) + i < |weights| && Q6.RowBytes(weights, n, row)[i] == weights[row * (210 * n) + i]
  {
    var at := row * (n * 210);
    assert n * 210 == 210 * n && at == row * (210 * n);
    assert weights[at..at + n * 210][i] == weights[at + i];
  }

  // The sum of the products of two vectors.
  function Inner(v: seq<real>, x: nat -> real): real {
    RangeSums.Sum(Paired(v, x), 0, |v|)
  }

  function Paired(v: seq<real>, x: nat -> real): nat -> real {
    (i: nat) => if i < |v| then v[i] * x(i) else 0.0
  }

  function Entries(x: seq<real>): nat -> real {
    (i: nat) => if i < |x| then x[i] else 0.0
  }

  lemma RowProductIs(v: seq<real>, x: seq<real>)
    requires |v| <= |x|
    ensures Q4.RowProduct(v, x) == Inner(v, Entries(x))
  {
    SumAgrees(Q4.Products(v, x), Paired(v, Entries(x)), 0, |v|);
  }

  function Inputs(m: Mem, f: Fill): nat -> real {
    (i: nat) => Multiplied(m, f, i)
  }

  // What the quantised kernels leave in a row, by what they multiply it with.
  lemma ExpectedIs(m: Mem, f: Fill, v: seq<real>)
    ensures Expected(m, f, v) == Inner(v, Inputs(m, f))
  {
    hide FillValue, Multiplied;
    forall i: nat | i < |v| ensures FillOf(m, f)(i) == Inputs(m, f)(i) {
      FillIsMultiplied(m, f, i);
    }
    SumAgrees(Terms(v, FillOf(m, f)), Paired(v, Inputs(m, f)), 0, |v|);
  }
}
