// Derivatives of real functions at zero, with a quadratic error bound.
module Calculus {
  import opened Values

  function Abs(x: real): real {
    if x < 0.0 then -x else x
  }

  function Min(a: real, b: real): real {
    if a < b then a else b
  }

  // At h, f is its tangent line up to c times the square of h.
  ghost predicate Close(f: real -> real, d: real, c: real, h: real) {
    Abs(f(h) - f(0.0) - d * h) <= c * (h * h)
  }

  ghost predicate Within(f: real -> real, d: real, c: real, r: real) {
    c >= 0.0 && r > 0.0 && forall h :: -r <= h <= r ==> Close(f, d, c, h)
  }

  // d is the derivative of f at zero.
  ghost predicate Derivative(f: real -> real, d: real) {
    exists c, r :: Within(f, d, c, r)
  }

  // ---- real arithmetic -----------------------------------------------------------------------

  lemma AbsTimes(x: real, y: real)
    ensures Abs(x * y) == Abs(x) * Abs(y)
  {
    if x < 0.0 && y < 0.0 {
      assert x * y == (-x) * (-y);
    } else if x < 0.0 {
      assert x * y == -((-x) * y);
    } else if y < 0.0 {
      assert x * y == -(x * (-y));
    }
  }

  lemma Monotone(a: real, b: real, c: real)
    requires a <= b && 0.0 <= c
    ensures a * c <= b * c && c * a <= c * b
  {
  }

  lemma StrictMonotone(a: real, b: real, c: real)
    requires a < b && 0.0 < c
    ensures a * c < b * c
  {
  }

  lemma Positive(a: real, b: real)
    requires 0.0 < a && 0.0 < b
    ensures 0.0 < a * b
  {
  }

  lemma NonNegative(a: real, b: real)
    requires 0.0 <= a && 0.0 <= b
    ensures 0.0 <= a * b
  {
  }

  lemma Associate(a: real, b: real, c: real)
    ensures a * (b * c) == a * b * c
  {
  }

  lemma Distribute(a: real, b: real, t: real)
    ensures (a + b) * t == a * t + b * t
    ensures t * (a - b) == t * a - t * b
  {
  }

  lemma SquareAbs(h: real)
    ensures h * h == Abs(h) * Abs(h) && 0.0 <= h * h
  {
    AbsTimes(h, h);
    if h < 0.0 {
      assert h * h == (-h) * (-h);
      NonNegative(-h, -h);
    } else {
      NonNegative(h, h);
    }
  }

  // ---- a derivative is the limit of difference quotients, and unique -----------------------------

  ghost predicate Approximates(f: real -> real, d: real, r: real, eps: real) {
    forall h :: -r <= h <= r && h != 0.0 ==> Abs((f(h) - f(0.0)) / h - d) <= eps
  }

  lemma DerivativeIsLimit(f: real -> real, d: real, eps: real)
    requires Derivative(f, d) && eps > 0.0
    ensures exists r :: r > 0.0 && Approximates(f, d, r, eps)
  {
    var c, r :| Within(f, d, c, r);
    PositiveQuotient(eps, c + 1.0);
    var m := Min(r, eps / (c + 1.0));
    forall h | -m <= h <= m && h != 0.0 ensures Abs((f(h) - f(0.0)) / h - d) <= eps {
      assert Close(f, d, c, h);
      QuotientBound(f(h) - f(0.0), d, h, c, eps);
    }
    assert Approximates(f, d, m, eps);
  }

  lemma PositiveQuotient(a: real, b: real)
    requires a > 0.0 && b > 0.0
    ensures a / b > 0.0
  {
  }

  lemma FractionBelow(w: real, r: real)
    requires w >= 0.0 && r > 0.0
    ensures w * (r / (w + 1.0)) <= r
  {
    var z := r / (w + 1.0);
    assert (w + 1.0) * z == r;
    Distribute(w, 1.0, z);
  }

  lemma QuotientBound(y: real, d: real, h: real, c: real, eps: real)
    requires h != 0.0 && c >= 0.0 && eps > 0.0
    requires Abs(y - d * h) <= c * (h * h) && Abs(h) <= eps / (c + 1.0)
    ensures Abs(y / h - d) <= eps
  {
    var q, t := y / h - d, Abs(h);
    QuotientNear(y, d, h, c);
    Cancel(Abs(q), c * t, t);
    Monotone(t, eps / (c + 1.0), c);
    FractionBelow(c, eps);
  }

  lemma QuotientNear(y: real, d: real, h: real, c: real)
    requires h != 0.0 && Abs(y - d * h) <= c * (h * h)
    ensures Abs(y / h - d) * Abs(h) <= c * Abs(h) * Abs(h)
  {
    QuotientTimes(y, d, h);
    AbsTimes(y / h - d, h);
    SquareAbs(h);
    Associate(c, Abs(h), Abs(h));
  }

  lemma QuotientTimes(y: real, d: real, h: real)
    requires h != 0.0
    ensures (y / h - d) * h == y - d * h
  {
  }

  lemma Cancel(a: real, b: real, c: real)
    requires a * c <= b * c && c > 0.0
    ensures a <= b
  {
    if b < a { StrictMonotone(b, a, c); }
  }

  lemma DerivativesClose(f: real -> real, d: real, d': real, eps: real)
    requires Derivative(f, d) && Derivative(f, d') && eps > 0.0
    ensures Abs(d - d') <= 2.0 * eps
  {
    DerivativeIsLimit(f, d, eps);
    DerivativeIsLimit(f, d', eps);
    var r :| r > 0.0 && Approximates(f, d, r, eps);
    var r' :| r' > 0.0 && Approximates(f, d', r', eps);
    var h := Min(r, r');
    var q := (f(h) - f(0.0)) / h;
    assert Abs(q - d) <= eps && Abs(q - d') <= eps;
  }

  lemma DerivativeUnique(f: real -> real, d: real, d': real)
    requires Derivative(f, d) && Derivative(f, d')
    ensures d == d'
  {
    if d != d' {
      DerivativesClose(f, d, d', Abs(d - d') / 3.0);
    }
  }

  // ---- linear rules ----------------------------------------------------------------------------------

  lemma SameDerivative(f: real -> real, g: real -> real, d: real)
    requires Derivative(f, d) && forall h :: f(h) == g(h)
    ensures Derivative(g, d)
  {
    var c, r :| Within(f, d, c, r);
    forall h | -r <= h <= r ensures Close(g, d, c, h) {
      assert Close(f, d, c, h);
    }
    assert Within(g, d, c, r);
  }

  lemma Restate(f: real -> real, d: real, e: real)
    requires Derivative(f, d) && d == e
    ensures Derivative(f, e)
  {
  }

  lemma ConstantRule(f: real -> real)
    requires forall h :: f(h) == f(0.0)
    ensures Derivative(f, 0.0)
  {
    forall h ensures Close(f, 0.0, 0.0, h) { }
    assert Within(f, 0.0, 0.0, 1.0);
  }

  lemma ShiftRule(f: real -> real, a: real)
    requires forall h :: f(h) == a + h
    ensures Derivative(f, 1.0)
  {
    forall h ensures Close(f, 1.0, 0.0, h) { }
    assert Within(f, 1.0, 0.0, 1.0);
  }

  lemma SumClose(f: real -> real, g: real -> real, s: real -> real, d: real, d': real, c: real, c': real, h: real)
    requires Close(f, d, c, h) && Close(g, d', c', h)
    requires s(h) == f(h) + g(h) && s(0.0) == f(0.0) + g(0.0)
    ensures Close(s, d + d', c + c', h)
  {
    Distribute(d, d', h);
    Distribute(c, c', h * h);
  }

  lemma SumRule(f: real -> real, g: real -> real, s: real -> real, d: real, d': real)
    requires Derivative(f, d) && Derivative(g, d') && forall h :: s(h) == f(h) + g(h)
    ensures Derivative(s, d + d')
  {
    var c, r :| Within(f, d, c, r);
    var c', r' :| Within(g, d', c', r');
    var m, e, k := Min(r, r'), d + d', c + c';
    forall h | -m <= h <= m ensures Close(s, e, k, h) {
      SumClose(f, g, s, d, d', c, c', h);
    }
    assert Within(s, e, k, m);
  }

  lemma ScaleClose(f: real -> real, s: real -> real, k: real, d: real, c: real, h: real)
    requires Close(f, d, c, h) && s(h) == k * f(h) && s(0.0) == k * f(0.0)
    ensures Close(s, k * d, Abs(k) * c, h)
  {
    var e := f(h) - f(0.0) - d * h;
    AbsTimes(k, e);
    Monotone(Abs(e), c * (h * h), Abs(k));
    assert k * e == k * f(h) - k * f(0.0) - k * (d * h);
    Associate(k, d, h);
    Associate(Abs(k), c, h * h);
  }

  lemma ScaleRule(f: real -> real, s: real -> real, k: real, d: real)
    requires Derivative(f, d) && forall h :: s(h) == k * f(h)
    ensures Derivative(s, k * d)
  {
    var c, r :| Within(f, d, c, r);
    var e, c' := k * d, Abs(k) * c;
    forall h | -r <= h <= r ensures Close(s, e, c', h) {
      ScaleClose(f, s, k, d, c, h);
    }
    NonNegative(Abs(k), c);
    assert Within(s, e, c', r);
  }

  // ---- composition -------------------------------------------------------------------------------------

  lemma ChainRule(fx: real -> real, u: real -> real, s: real -> real, d: real, d': real)
    requires Derivative(fx, d) && Derivative(u, d') && forall h :: s(h) == fx(u(h) - u(0.0))
    ensures Derivative(s, d * d')
  {
    var c, r :| Within(fx, d, c, r);
    var c', r' :| Within(u, d', c', r');
    var w := Abs(d') + c';
    var ww := w * w;
    PositiveQuotient(r, w + 1.0);
    var m := Min(Min(r', 1.0), r / (w + 1.0));
    var k, e := c * ww + Abs(d) * c', d * d';
    ChainConstantSign(d, c, c', w, ww, k);
    forall h | -m <= h <= m ensures Close(s, e, k, h) {
      assert Close(u, d', c', h);
      assert u(0.0) - u(0.0) == 0.0;
      ChainClose(fx, u, s, d, d', c, r, c', w, ww, k, e, h, u(h) - u(0.0), d' * h, h * h, e * h);
    }
    assert Within(s, e, k, m);
  }

  lemma ChainConstantSign(d: real, c: real, c': real, w: real, ww: real, k: real)
    requires c >= 0.0 && c' >= 0.0 && ww == w * w && k == c * ww + Abs(d) * c'
    ensures k >= 0.0
  {
    SquareAbs(w);
    NonNegative(c, w * w);
    NonNegative(Abs(d), c');
  }

  lemma SlopeOfSlope(d: real, d': real, e: real, h: real, t: real, eh: real)
    requires e == d * d' && t == d' * h && eh == e * h
    ensures d * t == eh
  {
  }

  lemma UnitSquare(t: real)
    requires 0.0 <= t <= 1.0
    ensures t * t <= t
  {
    Monotone(t, 1.0, t);
  }

  lemma SquareBelow(h: real, q: real)
    requires -1.0 <= h <= 1.0 && q == h * h
    ensures q <= Abs(h)
  {
    if h >= 0.0 {
      UnitSquare(h);
    } else {
      UnitSquare(-h);
      assert h * h == (-h) * (-h);
    }
  }

  lemma InnerBound(y: real, d': real, c': real, w: real, h: real, t: real, q: real)
    requires c' >= 0.0 && -1.0 <= h <= 1.0 && Abs(y - t) <= c' * q && w == Abs(d') + c'
    requires t == d' * h && q <= Abs(h)
    ensures Abs(y) <= w * Abs(h)
  {
    var a, b := c' * Abs(h), Abs(d') * Abs(h);
    AbsTimes(d', h);
    Monotone(q, Abs(h), c');
    Distribute(Abs(d'), c', Abs(h));
    InnerSum(y, t, c' * q, a, b);
  }

  lemma InnerSum(y: real, t: real, e: real, a: real, b: real)
    requires Abs(y - t) <= e <= a && Abs(t) == b
    ensures Abs(y) <= a + b
  {
  }

  lemma RangeBound(y: real, w: real, t: real, r: real)
    requires Abs(y) <= w * t && w >= 0.0 && r > 0.0 && t <= r / (w + 1.0)
    ensures -r <= y <= r
  {
    Monotone(t, r / (w + 1.0), w);
    FractionBelow(w, r);
  }

  lemma Triangle(a: real, b: real, c: real, x: real, y: real)
    requires Abs(a - b) <= x && Abs(b - c) <= y
    ensures Abs(a - c) <= x + y
  {
  }

  lemma Opened(f: real -> real, d: real, c: real, h: real, y: real, t: real, q: real)
    requires Close(f, d, c, h) && y == f(h) - f(0.0) && t == d * h && q == h * h
    ensures Abs(y - t) <= c * q
  {
  }

  lemma CloseFrom(f: real -> real, d: real, c: real, h: real, y: real, t: real, q: real)
    requires y == f(h) - f(0.0) && t == d * h && q == h * h && Abs(y - t) <= c * q
    ensures Close(f, d, c, h)
  {
  }

  lemma InnerStep(y: real, d': real, c': real, w: real, h: real, t: real, q: real)
    requires Abs(y - t) <= c' * q && c' >= 0.0 && w == Abs(d') + c'
    requires t == d' * h && q == h * h && -1.0 <= h <= 1.0
    ensures Abs(y) <= w * Abs(h)
  {
    SquareBelow(h, q);
    InnerBound(y, d', c', w, h, t, q);
  }

  lemma RangeNumbers(y: real, r: real, w: real, ww: real, h: real, q: real) returns (yy: real)
    requires r > 0.0 && w >= 0.0 && ww == w * w && q == h * h && Abs(h) <= r / (w + 1.0)
    requires Abs(y) <= w * Abs(h)
    ensures -r <= y <= r && yy == y * y && yy <= ww * q
  {
    RangeBound(y, w, Abs(h), r);
    yy := SquareBound(y, w, h, ww, q);
  }

  // One point of the composition, where the inner function has moved by y.
  lemma ChainClose(fx: real -> real, u: real -> real, s: real -> real, d: real, d': real, c: real, r: real, c': real, w: real, ww: real, k: real, e: real, h: real, y: real, t: real, q: real, eh: real)
    requires Within(fx, d, c, r) && Close(u, d', c', h) && c' >= 0.0 && y == u(h) - u(0.0)
    requires s(h) == fx(y) && s(0.0) == fx(0.0)
    requires w == Abs(d') + c' && ww == w * w && k == c * ww + Abs(d) * c' && e == d * d'
    requires -1.0 <= h <= 1.0 && Abs(h) <= r / (w + 1.0)
    requires t == d' * h && q == h * h && eh == e * h
    ensures Close(s, e, k, h)
  {
    Opened(u, d', c', h, y, t, q);
    InnerStep(y, d', c', w, h, t, q);
    var yy := RangeNumbers(y, r, w, ww, h, q);
    SlopeOfSlope(d, d', e, h, t, eh);
    assert Close(fx, d, c, y);
    OuterClose(fx, s, d, c, c', ww, k, e, h, y, t, q, yy, eh);
  }

  lemma OuterClose(fx: real -> real, s: real -> real, d: real, c: real, c': real, ww: real, k: real, e: real, h: real, y: real, t: real, q: real, yy: real, eh: real)
    requires c >= 0.0 && Close(fx, d, c, y) && s(h) == fx(y) && s(0.0) == fx(0.0)
    requires q == h * h && yy == y * y && eh == e * h && d * t == eh
    requires Abs(y - t) <= c' * q && yy <= ww * q && k == c * ww + Abs(d) * c'
    ensures Close(s, e, k, h)
  {
    var z := s(h) - s(0.0);
    Opened(fx, d, c, y, z, d * y, yy);
    ErrorSum(z, y, d, t, eh, q, yy, c, c', ww, k);
    CloseFrom(s, e, k, h, z, eh, q);
  }

  lemma ErrorSum(z: real, y: real, d: real, s: real, t: real, q: real, yy: real, c: real, c': real, ww: real, k: real)
    requires c >= 0.0 && k == c * ww + Abs(d) * c' && d * s == t
    requires Abs(y - s) <= c' * q && yy <= ww * q && Abs(z - d * y) <= c * yy
    ensures Abs(z - t) <= k * q
  {
    ScaledBound(c, yy, ww, q);
    SlopeError(d, y, s, c', q);
    Distribute(c * ww, Abs(d) * c', q);
    Triangle(z, d * y, d * s, (c * ww) * q, (Abs(d) * c') * q);
  }

  lemma ScaledBound(c: real, yy: real, ww: real, q: real)
    requires c >= 0.0 && yy <= ww * q
    ensures c * yy <= (c * ww) * q
  {
    Monotone(yy, ww * q, c);
    Associate(c, ww, q);
  }

  lemma SlopeError(d: real, y: real, s: real, c: real, q: real)
    requires Abs(y - s) <= c * q
    ensures Abs(d * y - d * s) <= (Abs(d) * c) * q
  {
    Distribute(y, s, d);
    AbsTimes(d, y - s);
    Monotone(Abs(y - s), c * q, Abs(d));
    Associate(Abs(d), c, q);
  }

  lemma SquareBound(y: real, w: real, h: real, ww: real, q: real) returns (yy: real)
    requires Abs(y) <= w * Abs(h) && ww == w * w && q == h * h
    ensures yy == y * y && yy <= ww * q
  {
    var a, b := Abs(y), w * Abs(h);
    SquareAbs(y);
    SquareAbs(h);
    Monotone(a, b, a);
    Monotone(a, b, b);
    SquareOfProduct(w, Abs(h));
    yy := y * y;
  }

  lemma SquareOfProduct(w: real, t: real)
    ensures (w * t) * (w * t) == (w * w) * (t * t)
  {
  }

  // ---- squares and, through them, products -------------------------------------------------------

  lemma SquareSmooth(x: real, f: real -> real)
    requires forall h :: f(h) == (x + h) * (x + h)
    ensures Derivative(f, 2.0 * x)
  {
    var e := 2.0 * x;
    forall h ensures Close(f, e, 1.0, h) {
      SquareAbs(h);
      SquareIdentity(x, h);
    }
    assert Within(f, e, 1.0, 1.0);
  }

  lemma SquareIdentity(x: real, h: real)
    ensures (x + h) * (x + h) - (x + 0.0) * (x + 0.0) - 2.0 * x * h == h * h
  {
  }

  lemma SquareRule(u: real -> real, s: real -> real, d: real)
    requires Derivative(u, d) && forall h :: s(h) == u(h) * u(h)
    ensures Derivative(s, 2.0 * u(0.0) * d)
  {
    var x := u(0.0);
    var f := (h: real) => (x + h) * (x + h);
    SquareSmooth(x, f);
    forall h ensures s(h) == f(u(h) - u(0.0)) {
      assert x + (u(h) - u(0.0)) == u(h);
    }
    var e := 2.0 * x;
    ChainRule(f, u, s, e, d);
    Restate(s, e * d, 2.0 * u(0.0) * d);
  }

  lemma DifferenceRule(f: real -> real, g: real -> real, s: real -> real, d: real, d': real)
    requires Derivative(f, d) && Derivative(g, d') && forall h :: s(h) == f(h) - g(h)
    ensures Derivative(s, d - d')
  {
    var k := -1.0;
    var n := (h: real) => k * g(h);
    ScaleRule(g, n, k, d');
    var e := k * d';
    SumRule(f, n, s, d, e);
    Restate(s, d + e, d - d');
  }

  // f g is a quarter of (f + g)^2 - (f - g)^2.
  lemma ProductRule(f: real -> real, g: real -> real, s: real -> real, d: real, d': real)
    requires Derivative(f, d) && Derivative(g, d') && forall h :: s(h) == f(h) * g(h)
    ensures Derivative(s, d * g(0.0) + f(0.0) * d')
  {
    var pp := SquaredSum(f, g, d, d');
    var mm := SquaredDifference(f, g, d, d');
    forall h ensures s(h) == 0.25 * (pp(h) - mm(h)) {
      Polarize(f(h), g(h));
    }
    PolarizeTangent(f(0.0), g(0.0), d, d');
    QuarterDifference(pp, mm, s, 2.0 * (f(0.0) + g(0.0)) * (d + d'), 2.0 * (f(0.0) - g(0.0)) * (d - d'), d * g(0.0) + f(0.0) * d');
  }

  lemma QuarterDifference(pp: real -> real, mm: real -> real, s: real -> real, e: real, e': real, t: real)
    requires Derivative(pp, e) && Derivative(mm, e') && t == 0.25 * (e - e')
    requires forall h :: s(h) == 0.25 * (pp(h) - mm(h))
    ensures Derivative(s, t)
  {
    var k, z := 0.25, e - e';
    var q := (h: real) => pp(h) - mm(h);
    DifferenceRule(pp, mm, q, e, e');
    ScaleRule(q, s, k, z);
    Restate(s, k * z, t);
  }

  lemma SquaredSum(f: real -> real, g: real -> real, d: real, d': real) returns (s: real -> real)
    requires Derivative(f, d) && Derivative(g, d')
    ensures forall h :: s(h) == (f(h) + g(h)) * (f(h) + g(h))
    ensures Derivative(s, 2.0 * (f(0.0) + g(0.0)) * (d + d'))
  {
    var p := (h: real) => f(h) + g(h);
    s := (h: real) => p(h) * p(h);
    var e := d + d';
    SumRule(f, g, p, d, d');
    SquareRule(p, s, e);
    Restate(s, 2.0 * p(0.0) * e, 2.0 * (f(0.0) + g(0.0)) * (d + d'));
  }

  lemma SquaredDifference(f: real -> real, g: real -> real, d: real, d': real) returns (s: real -> real)
    requires Derivative(f, d) && Derivative(g, d')
    ensures forall h :: s(h) == (f(h) - g(h)) * (f(h) - g(h))
    ensures Derivative(s, 2.0 * (f(0.0) - g(0.0)) * (d - d'))
  {
    var m := (h: real) => f(h) - g(h);
    s := (h: real) => m(h) * m(h);
    var e := d - d';
    DifferenceRule(f, g, m, d, d');
    SquareRule(m, s, e);
    Restate(s, 2.0 * m(0.0) * e, 2.0 * (f(0.0) - g(0.0)) * (d - d'));
  }

  lemma Polarize(a: real, b: real)
    ensures a * b == 0.25 * ((a + b) * (a + b) - (a - b) * (a - b))
  {
  }

  lemma PolarizeTangent(a: real, b: real, d: real, d': real)
    ensures 0.25 * (2.0 * (a + b) * (d + d') - 2.0 * (a - b) * (d - d')) == d * b + a * d'
  {
  }

  // ---- the reciprocal and, through it, quotients ------------------------------------------------------

  lemma ReciprocalSmooth(x: real, f: real -> real)
    requires x != 0.0 && forall h :: f(h) == Quotient(1.0, x + h)
    ensures Derivative(f, -(1.0 / x / x))
  {
    var r := Abs(x) / 2.0;
    PositiveCube(Abs(x), r);
    var p := Abs(x) * Abs(x) * r;
    PositiveQuotient(1.0, p);
    ReciprocalWithin(x, f, -(1.0 / x / x), p, 1.0 / p, r);
  }

  lemma ReciprocalWithin(x: real, f: real -> real, e: real, p: real, c: real, r: real)
    requires x != 0.0 && c > 0.0 && r > 0.0 && forall h :: f(h) == Quotient(1.0, x + h)
    requires e == -(1.0 / x / x) && r == Abs(x) / 2.0
    requires p == Abs(x) * Abs(x) * r && p > 0.0 && c == 1.0 / p
    ensures Derivative(f, e)
  {
    forall h | -r <= h <= r ensures Close(f, e, c, h) {
      ReciprocalClose(x, f, e, p, c, r, h, x + h, h * h, e * h);
    }
    assert Within(f, e, c, r);
  }

  lemma ReciprocalClose(x: real, f: real -> real, e: real, p: real, c: real, r: real, h: real, y: real, n: real, t: real)
    requires x != 0.0 && r > 0.0 && Abs(h) <= r && r == Abs(x) / 2.0 && y == x + h && n == h * h && t == e * h
    requires f(h) == Quotient(1.0, x + h) && f(0.0) == Quotient(1.0, x + 0.0)
    requires e == -(1.0 / x / x) && p == Abs(x) * Abs(x) * r && p > 0.0 && c == 1.0 / p
    ensures Close(f, e, c, h)
  {
    SquareAbs(h);
    var m, l := ReciprocalError(x, h, e, y, n, t);
    SizeAt(x, y, r, n, p, m, c, l);
    CloseFrom(f, e, c, h, f(h) - f(0.0), t, n);
  }

  lemma ReciprocalError(x: real, h: real, e: real, y: real, n: real, t: real) returns (m: real, l: real)
    requires x != 0.0 && y == x + h && y != 0.0 && e == -(1.0 / x / x) && n == h * h && t == e * h
    ensures m == x * x * y && m != 0.0 && l == n / m
    ensures Quotient(1.0, x + h) - Quotient(1.0, x + 0.0) - t == l
  {
    ReciprocalIdentity(x, h);
    m := x * x * y;
    l := n / m;
  }

  lemma SizeAt(x: real, y: real, r: real, n: real, p: real, m: real, c: real, l: real)
    requires x != 0.0 && Abs(y) >= r && r > 0.0 && n >= 0.0 && p == Abs(x) * Abs(x) * r && m == x * x * y
    requires p > 0.0 && m != 0.0 && l == n / m && c == 1.0 / p
    ensures Abs(l) <= c * n
  {
    ReciprocalScale(x, y, Abs(x), r);
    SizeBound(n, p, m, c, l);
  }

  lemma SizeBound(n: real, p: real, m: real, c: real, l: real)
    requires n >= 0.0 && 0.0 < p <= Abs(m) && m != 0.0 && c == 1.0 / p && l == n / m
    ensures Abs(l) <= c * n
  {
    AbsQuotient(n, m);
    DivideBound(n, p, Abs(m));
    InverseTimes(n, p);
  }

  lemma PositiveCube(a: real, r: real)
    requires a > 0.0 && r > 0.0
    ensures a * a * r > 0.0
  {
    Positive(a, r);
    Positive(a, a * r);
  }

  lemma SquareScale(a: real, r: real, t: real)
    requires a > 0.0 && r <= t
    ensures a * a * r <= a * a * t
  {
    Monotone(r, t, a);
    Monotone(a * r, a * t, a);
  }

  lemma ReciprocalScale(x: real, y: real, a: real, r: real)
    requires a == Abs(x) && a > 0.0 && Abs(y) >= r && r > 0.0
    ensures Abs(x * x * y) >= a * a * r && x * x * y != 0.0
  {
    AbsTimes(x, x);
    AbsTimes(x * x, y);
    PositiveCube(a, r);
    SquareScale(a, r, Abs(y));
  }

  lemma InverseTimes(n: real, p: real)
    requires p != 0.0
    ensures n / p == 1.0 / p * n
  {
  }

  lemma ReciprocalIdentity(x: real, h: real)
    requires x != 0.0 && x + h != 0.0
    ensures x * x * (x + h) != 0.0
    ensures 1.0 / (x + h) - 1.0 / x - -(1.0 / x / x) * h == h * h / (x * x * (x + h))
  {
    var y := x + h;
    var i, j := 1.0 / x, 1.0 / y;
    assert i * x == 1.0 && j * y == 1.0 && 1.0 / x / x == i * i;
    InverseProducts(x, y, h, i, j);
    DivideOut(j - i - -(i * i) * h, h * h, x * x * y);
  }

  lemma InverseProducts(x: real, y: real, h: real, i: real, j: real)
    requires i * x == 1.0 && j * y == 1.0 && y == x + h
    ensures x * x * y != 0.0
    ensures (j - i - -(i * i) * h) * (x * x * y) == h * h
  {
    var m := x * x * y;
    assert j * m == x * x by { assert j * m == x * x * (j * y); }
    assert i * m == x * y by { assert i * m == x * y * (i * x); }
    assert i * i * m == y by { assert i * i * m == i * x * (i * x) * y; }
    assert i * i * h * m == y * h by { assert i * i * h * m == i * i * m * h; }
    assert (j - i - -(i * i) * h) * m == j * m - i * m + i * i * h * m;
    assert x * x - x * y + y * h == h * h;
    assert i * i * j * m == 1.0 by { assert i * i * j * m == j * (i * i * m); }
  }

  lemma DivideOut(l: real, n: real, m: real)
    requires m != 0.0 && l * m == n
    ensures l == n / m
  {
  }

  lemma AbsQuotient(n: real, m: real)
    requires m != 0.0 && n >= 0.0
    ensures Abs(n / m) == n / Abs(m)
  {
    var q := n / m;
    AbsTimes(q, m);
    assert q * m == n;
    DivideOut(Abs(q), n, Abs(m));
  }

  lemma DivideBound(n: real, p: real, q: real)
    requires 0.0 < p <= q && n >= 0.0
    ensures n / q <= n / p
  {
    var a, b := n / q, n / p;
    assert a * q == n && b * p == n;
    if a > b {
      Monotone(p, q, b);
      StrictMonotone(b, a, q);
      assert false;
    }
  }

  lemma Recentred(f: real -> real, g: real -> real, inv: real -> real, x: real)
    requires forall h :: f(h) == Quotient(1.0, x + h)
    requires forall h :: inv(h) == Quotient(1.0, g(h))
    requires g(0.0) == x
    ensures forall h :: inv(h) == f(g(h) - g(0.0))
  {
    forall h ensures inv(h) == f(g(h) - g(0.0)) {
      assert x + (g(h) - g(0.0)) == g(h);
    }
  }

  lemma ReciprocalRule(x: real) returns (f: real -> real, e: real)
    requires x != 0.0
    ensures forall h :: f(h) == Quotient(1.0, x + h)
    ensures e == -(1.0 / x / x) && Derivative(f, e)
  {
    f := (h: real) => Quotient(1.0, x + h);
    e := -(1.0 / x / x);
    ReciprocalSmooth(x, f);
  }

  lemma InverseRule(g: real -> real, d': real, x: real, f: real -> real, e: real) returns (inv: real -> real)
    requires Derivative(g, d') && g(0.0) == x && Derivative(f, e)
    requires forall h :: f(h) == Quotient(1.0, x + h)
    ensures forall h :: inv(h) == Quotient(1.0, g(h))
    ensures Derivative(inv, e * d')
  {
    inv := (h: real) => Quotient(1.0, g(h));
    Recentred(f, g, inv, x);
    ChainRule(f, g, inv, e, d');
  }

  lemma QuotientAsProduct(a: real, b: real)
    ensures Quotient(a, b) == a * Quotient(1.0, b)
  {
  }

  lemma QuotientRule(f: real -> real, g: real -> real, s: real -> real, d: real, d': real)
    requires Derivative(f, d) && Derivative(g, d') && g(0.0) != 0.0
    requires forall h :: s(h) == Quotient(f(h), g(h))
    ensures Derivative(s, Quotient(d - s(0.0) * d', g(0.0)))
  {
    var r, e := ReciprocalRule(g(0.0));
    var inv := InverseRule(g, d', g(0.0), r, e);
    InverseProduct(f, g, inv, s);
    QuotientFromInverse(f, inv, s, d, d', g(0.0), e, e * d');
  }

  lemma InverseProduct(f: real -> real, g: real -> real, inv: real -> real, s: real -> real)
    requires forall h :: inv(h) == Quotient(1.0, g(h))
    requires forall h :: s(h) == Quotient(f(h), g(h))
    ensures forall h :: s(h) == f(h) * inv(h)
  {
    forall h ensures s(h) == f(h) * inv(h) {
      QuotientAsProduct(f(h), g(h));
    }
  }

  lemma QuotientFromInverse(f: real -> real, inv: real -> real, s: real -> real, d: real, d': real, x: real, e: real, t: real)
    requires Derivative(f, d) && Derivative(inv, t) && t == e * d' && x != 0.0 && e == -(1.0 / x / x)
    requires inv(0.0) == Quotient(1.0, x) && s(0.0) == Quotient(f(0.0), x)
    requires forall h :: s(h) == f(h) * inv(h)
    ensures Derivative(s, Quotient(d - s(0.0) * d', x))
  {
    ProductRule(f, inv, s, d, t);
    QuotientDerivative(f(0.0), x, d, d', e);
    Restate(s, d * inv(0.0) + f(0.0) * t, Quotient(d - s(0.0) * d', x));
  }

  lemma QuotientDerivative(a: real, x: real, d: real, d': real, e: real)
    requires x != 0.0 && e == -(1.0 / x / x)
    ensures d * Quotient(1.0, x) + a * (e * d') == Quotient(d - Quotient(a, x) * d', x)
  {
    var i := 1.0 / x;
    InverseForms(a, x, d - a / x * d', i);
    FourTerms(a, d, d', i);
  }

  lemma InverseForms(a: real, x: real, b: real, i: real)
    requires x != 0.0 && i == 1.0 / x
    ensures 1.0 / x / x == i * i && a / x == a * i && b / x == b * i
  {
  }

  lemma FourTerms(a: real, d: real, d': real, i: real)
    ensures d * i + a * (-(i * i) * d') == (d - a * i * d') * i
  {
    assert (d - a * i * d') * i == d * i - a * i * d' * i;
    assert a * (-(i * i) * d') == -(a * i * d' * i);
  }
}
