// Softmax averages: with any shift, in one pass with rescaling, and in two passes.
module Softmax {
  import opened Values

  type Exp = real -> real

  ghost predicate SumToProduct(exp: Exp, a: real, b: real) {
    exp(a + b) == exp(a) * exp(b)
  }

  ghost predicate ExpLaws(exp: Exp) {
    && (forall x :: exp(x) > 0.0)
    && (forall a, b :: SumToProduct(exp, a, b))
  }

  // Sums over the first n scores of exp(s - m), and of exp(s - m) times a value.
  function Mass(exp: Exp, s: Vec, m: real, n: nat): real {
    if n == 0 then 0.0 else Mass(exp, s, m, n - 1) + exp(At(s, n - 1) - m)
  }

  function Mixed(exp: Exp, s: Vec, v: Vec, m: real, n: nat): real {
    if n == 0 then 0.0 else Mixed(exp, s, v, m, n - 1) + exp(At(s, n - 1) - m) * At(v, n - 1)
  }

  // The softmax average of the values, with no shift; zero over no scores.
  function Attend(exp: Exp, s: Vec, v: Vec): real {
    Quotient(Mixed(exp, s, v, 0.0, |s|), Mass(exp, s, 0.0, |s|))
  }

  // ---- shifting ------------------------------------------------------------------------------

  lemma {:induction false} MassPositive(exp: Exp, s: Vec, m: real, n: nat)
    requires ExpLaws(exp)
    ensures n > 0 ==> Mass(exp, s, m, n) > 0.0
    ensures Mass(exp, s, m, n) >= 0.0
  {
    if n > 0 { MassPositive(exp, s, m, n - 1); }
  }

  lemma Factor(a: real, b: real, r: real, w: real, v: real, wr: real)
    requires a == b * r && wr == w * r
    ensures a + wr == (b + w) * r
    ensures a + wr * v == (b + w * v) * r
  {
  }

  lemma ShiftWeight(exp: Exp, x: real, m: real, k: real)
    requires ExpLaws(exp)
    ensures exp(x - k) == exp(x - m) * exp(m - k)
  {
    assert SumToProduct(exp, x - m, m - k);
    assert (x - m) + (m - k) == x - k;
  }

  lemma {:induction false} ShiftSums(exp: Exp, s: Vec, v: Vec, m: real, k: real, n: nat)
    requires ExpLaws(exp)
    ensures Mass(exp, s, k, n) == Mass(exp, s, m, n) * exp(m - k)
    ensures Mixed(exp, s, v, k, n) == Mixed(exp, s, v, m, n) * exp(m - k)
  {
    if n > 0 {
      ShiftSums(exp, s, v, m, k, n - 1);
      ShiftWeight(exp, At(s, n - 1), m, k);
      var r, w, x, wr := exp(m - k), exp(At(s, n - 1) - m), At(v, n - 1), exp(At(s, n - 1) - k);
      Factor(Mass(exp, s, k, n - 1), Mass(exp, s, m, n - 1), r, w, x, wr);
      Factor(Mixed(exp, s, v, k, n - 1), Mixed(exp, s, v, m, n - 1), r, w, x, wr);
    }
  }

  lemma SameRatio(a: real, b: real, r: real)
    requires b > 0.0 && r > 0.0
    ensures b * r > 0.0 && a * r / (b * r) == a / b
  {
    var q := a / b;
    assert q * b == a;
    assert q * (b * r) == a * r;
  }

  // The average does not depend on the shift.
  lemma ShiftedRatio(exp: Exp, s: Vec, v: Vec, m: real)
    requires ExpLaws(exp) && |s| > 0
    ensures Mass(exp, s, m, |s|) > 0.0
    ensures Mixed(exp, s, v, m, |s|) / Mass(exp, s, m, |s|) == Attend(exp, s, v)
  {
    MassPositive(exp, s, 0.0, |s|);
    ShiftSums(exp, s, v, 0.0, m, |s|);
    SameRatio(Mixed(exp, s, v, 0.0, |s|), Mass(exp, s, 0.0, |s|), exp(0.0 - m));
  }

  // ---- one pass -----------------------------------------------------------------------------------

  // Rescaling what has been summed and adding the next score keeps the sums exact.
  lemma OnlineStep(exp: Exp, s: Vec, v: Vec, m: real, k: real, n: nat)
    requires ExpLaws(exp) && n < |s|
    ensures Mass(exp, s, k, n + 1) == Mass(exp, s, m, n) * exp(m - k) + exp(At(s, n) - k)
    ensures Mixed(exp, s, v, k, n + 1) == Mixed(exp, s, v, m, n) * exp(m - k) + exp(At(s, n) - k) * At(v, n)
  {
    ShiftSums(exp, s, v, m, k, n);
  }

  // The last scaling, with the guard for an empty sum.
  lemma OnlineEnd(exp: Exp, s: Vec, v: Vec, m: real, inv: real)
    requires ExpLaws(exp)
    requires inv == if Mass(exp, s, m, |s|) > 0.0 then 1.0 / Mass(exp, s, m, |s|) else 0.0
    ensures Mixed(exp, s, v, m, |s|) * inv == Attend(exp, s, v)
  {
    if |s| > 0 { ShiftedRatio(exp, s, v, m); }
  }

  // ---- two passes ---------------------------------------------------------------------------------

  // Weights normalised one by one, then averaged.
  function TwoPass(exp: Exp, s: Vec, v: Vec, m: real, total: real, n: nat): real {
    if n == 0 then 0.0 else TwoPass(exp, s, v, m, total, n - 1) + Quotient(exp(At(s, n - 1) - m), total) * At(v, n - 1)
  }

  lemma {:induction false} TwoPassRatio(exp: Exp, s: Vec, v: Vec, m: real, total: real, n: nat)
    requires total > 0.0
    ensures TwoPass(exp, s, v, m, total, n) == Mixed(exp, s, v, m, n) / total
  {
    if n > 0 {
      TwoPassRatio(exp, s, v, m, total, n - 1);
      AddQuotient(Mixed(exp, s, v, m, n - 1), exp(At(s, n - 1) - m), At(v, n - 1), total);
    }
  }

  lemma AddQuotient(a: real, w: real, v: real, t: real)
    requires t > 0.0
    ensures a / t + w / t * v == (a + w * v) / t
  {
    assert w / t * v == w * v / t;
  }

  // Whatever the running maximum started from, both forms give the same average.
  lemma TwoPassIsAttend(exp: Exp, s: Vec, v: Vec, m: real)
    requires ExpLaws(exp) && |s| > 0
    ensures TwoPass(exp, s, v, m, Mass(exp, s, m, |s|), |s|) == Attend(exp, s, v)
  {
    ShiftedRatio(exp, s, v, m);
    TwoPassRatio(exp, s, v, m, Mass(exp, s, m, |s|), |s|);
  }

  // ---- bounds ----------------------------------------------------------------------------------------

  lemma {:induction false} MixedWithin(exp: Exp, s: Vec, v: Vec, lo: real, hi: real, n: nat, mass: real, mix: real)
    requires ExpLaws(exp) && forall j :: 0 <= j < n ==> lo <= At(v, j) <= hi
    requires mass == Mass(exp, s, 0.0, n) && mix == Mixed(exp, s, v, 0.0, n)
    ensures lo * mass <= mix <= hi * mass
  {
    if n > 0 {
      var w, x := exp(At(s, n - 1) - 0.0), At(v, n - 1);
      var mass', mix' := Mass(exp, s, 0.0, n - 1), Mixed(exp, s, v, 0.0, n - 1);
      MixedWithin(exp, s, v, lo, hi, n - 1, mass', mix');
      WithinStep(w, x, lo, hi, mass', mix', mass, mix);
    }
  }

  lemma WithinStep(w: real, x: real, lo: real, hi: real, mass: real, mix: real, mass': real, mix': real)
    requires w > 0.0 && lo <= x <= hi && lo * mass <= mix <= hi * mass
    requires mass' == mass + w && mix' == mix + w * x
    ensures lo * mass' <= mix' <= hi * mass'
  {
    Monotone(lo, x, w);
    Monotone(x, hi, w);
    assert lo * mass' == lo * mass + w * lo && hi * mass' == hi * mass + w * hi;
  }

  lemma Monotone(a: real, b: real, w: real)
    requires a <= b && w > 0.0
    ensures w * a <= w * b
  {
  }

  // An average lies within any bounds on the values.
  lemma AttendWithin(exp: Exp, s: Vec, v: Vec, lo: real, hi: real)
    requires ExpLaws(exp) && |s| > 0 && forall j :: 0 <= j < |s| ==> lo <= At(v, j) <= hi
    ensures lo <= Attend(exp, s, v) <= hi
  {
    MassPositive(exp, s, 0.0, |s|);
    MixedWithin(exp, s, v, lo, hi, |s|, Mass(exp, s, 0.0, |s|), Mixed(exp, s, v, 0.0, |s|));
    RatioWithin(Mixed(exp, s, v, 0.0, |s|), Mass(exp, s, 0.0, |s|), lo, hi);
  }

  lemma RatioWithin(a: real, b: real, lo: real, hi: real)
    requires b > 0.0 && lo * b <= a <= hi * b
    ensures lo <= a / b <= hi
  {
    var q := a / b;
    assert q * b == a;
    Unscale(lo, q, b);
    Unscale(q, hi, b);
  }

  lemma Unscale(a: real, b: real, c: real)
    requires a * c <= b * c && c > 0.0
    ensures a <= b
  {
    if b < a { Less(b, a, c); }
  }

  lemma Less(a: real, b: real, c: real)
    requires a < b && c > 0.0
    ensures a * c < b * c
  {
  }
}
