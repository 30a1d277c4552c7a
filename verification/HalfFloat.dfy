// Half-precision values: the kernels' bit trick (python/xecuda/kernels.py, fp16_to_float)
// against the reference (tools/_offref.py, fp16f).
module HalfFloat {

  type Half = h: int | 0 <= h < 65536

  datatype Value = Number(r: real) | NotANumber

  function Pow2(k: int): (r: real)
    ensures r > 0.0
    decreases if k < 0 then -k else k
  {
    if k == 0 then 1.0 else if k > 0 then 2.0 * Pow2(k - 1) else Pow2(k + 1) / 2.0
  }

  function Sign(h: Half): int {
    h / 32768
  }

  function Exponent(h: Half): int {
    h / 1024 % 32
  }

  function Mantissa(h: Half): int {
    h % 1024
  }

  function Signed(s: int, r: real): real {
    if s == 0 then r else -r
  }

  // fp16f: an infinity counts as one, and other values with all exponent bits set are no number.
  function Reference(h: Half): Value {
    var e, m := Exponent(h), Mantissa(h);
    if e == 0 then Number(Signed(Sign(h), (m as real) / 1024.0 * Pow2(-14)))
    else if e == 31 then (if m == 0 then Number(Signed(Sign(h), 1.0)) else NotANumber)
    else Number(Signed(Sign(h), (1.0 + (m as real) / 1024.0) * Pow2(e - 15)))
  }

  // A normal single-precision number from its bits.
  function AsFloat(f: nat): real {
    var s, e, m := f / 2147483648 % 2, f / 8388608 % 256, f % 8388608;
    Signed(s, (1.0 + (m as real) / 8388608.0) * Pow2(e - 127))
  }

  // fp16_to_float: the fields shifted into place; their bits are disjoint, so or is a sum.
  function SingleBits(h: Half): nat {
    h / 32768 * 2147483648 + (h / 1024 % 32 * 1024 + 0x1C000) * 8192 + h % 1024 * 8192
  }

  const SMALLEST: real := 0.000000059604644775390625

  function Kernel(h: Half): real {
    if Exponent(h) == 0 then Signed(Sign(h), (Mantissa(h) as real) * SMALLEST) else AsFloat(SingleBits(h))
  }

  lemma SingleFields(h: Half)
    ensures SingleBits(h) / 2147483648 % 2 == Sign(h)
    ensures SingleBits(h) / 8388608 % 256 == Exponent(h) + 112
    ensures SingleBits(h) % 8388608 == Mantissa(h) * 8192
  {
    var s, e, m := Sign(h), Exponent(h), Mantissa(h);
    assert SingleBits(h) == s * 2147483648 + (e + 112) * 8388608 + m * 8192;
  }

  lemma Pow2Step(k: int)
    ensures Pow2(k + 1) == 2.0 * Pow2(k)
  {
  }

  lemma SmallPowers(k: int)
    requires k == -14
    ensures Pow2(k) * 16384.0 == 1.0
  {
    Pow2Step(k);
    Pow2Step(k + 1);
    Pow2Step(k + 2);
    Pow2Step(k + 3);
    Pow2Step(k + 4);
    Pow2Step(k + 5);
    Pow2Step(k + 6);
    Pow2Step(k + 7);
    Pow2Step(k + 8);
    Pow2Step(k + 9);
    Pow2Step(k + 10);
    Pow2Step(k + 11);
    Pow2Step(k + 12);
    Pow2Step(k + 13);
  }

  lemma {:induction false} Pow2Large(k: int)
    requires k >= 1
    ensures Pow2(k) >= 2.0
  {
    if k > 1 { Pow2Large(k - 1); }
  }

  lemma Subnormal(m: real, p: real)
    requires p * 16384.0 == 1.0
    ensures m / 1024.0 * p == m * SMALLEST
  {
    assert p == 1.0 / 16384.0;
  }

  function Normal(s: int, e: int, m: int): real {
    Signed(s, (1.0 + (m as real) / 1024.0) * Pow2(e - 15))
  }

  lemma ScaleMantissa(m: int)
    ensures ((m * 8192) as real) / 8388608.0 == (m as real) / 1024.0
  {
  }

  lemma NormalValue(h: Half)
    requires Exponent(h) != 0
    ensures Kernel(h) == Normal(Sign(h), Exponent(h), Mantissa(h))
  {
    SingleFields(h);
    ScaleMantissa(Mantissa(h));
  }

  lemma NormalReference(h: Half, s: int, e: int, m: int)
    requires s == Sign(h) && e == Exponent(h) && m == Mantissa(h) && e != 0 && e != 31
    ensures Reference(h) == Number(Normal(s, e, m))
  {
  }

  lemma AboveOne(m: real, p: real)
    requires m >= 0.0 && p >= 2.0
    ensures (1.0 + m) * p >= 2.0
  {
    assert (1.0 + m) * p == p + m * p;
    assert m * p >= 0.0;
  }

  lemma SubnormalAgrees(h: Half, k: int)
    requires Exponent(h) == 0 && k == -14
    ensures Reference(h) == Number(Kernel(h))
  {
    SmallPowers(k);
    Subnormal(Mantissa(h) as real, Pow2(k));
  }

  lemma NormalAgrees(h: Half)
    requires Exponent(h) != 0 && Exponent(h) != 31
    ensures Reference(h) == Number(Kernel(h))
  {
    NormalValue(h);
    NormalReference(h, Sign(h), Exponent(h), Mantissa(h));
  }

  lemma SpecialDiffers(h: Half, k: int)
    requires Exponent(h) == 31 && k == 16
    ensures Reference(h) != Number(Kernel(h))
  {
    NormalValue(h);
    Pow2Large(k);
    AboveOne((Mantissa(h) as real) / 1024.0, Pow2(k));
  }

  // The kernels read a half-precision number as the reference does exactly when its exponent
  // bits are not all set.
  lemma KernelAgreesExactly(h: Half)
    ensures Reference(h) == Number(Kernel(h)) <==> Exponent(h) != 31
  {
    if Exponent(h) == 0 { SubnormalAgrees(h, -14); }
    else if Exponent(h) == 31 { SpecialDiffers(h, 16); }
    else { NormalAgrees(h); }
  }
}
