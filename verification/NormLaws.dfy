// What the normalising kernels (python/xecuda/kernels.py) leave in memory, said of their inputs
// alone: the mean square of what rms_norm writes, and the sums that the matrix-vector kernels form.
module NormLaws {
  import opened Tensors
  import opened Values
  import RangeSums
  import opened Barriers
  import opened Reduction
  import opened NormKernels

  // ---- the inverse root -------------------------------------------------------------------------

  ghost predicate RootLaws(sqrt: real -> real) {
    forall v: real :: v >= 0.0 ==> sqrt(v) >= 0.0 && sqrt(v) * sqrt(v) == v
  }

  // Entry i of x, or of x plus the residual.
  function Entry(m: Mem, fused: bool, i: nat): real {
    if fused then Get(m, X(i)) + Get(m, Residual(i)) else Get(m, X(i))
  }

  function SquareSum(m: Mem, fused: bool, n: nat): real {
    RangeSums.Sum((i: nat) => Entry(m, fused, i) * Entry(m, fused, i), 0, n)
  }

  // inv is positive, and its square times the sum and n times eps is n.
  predicate Normalises(inv: real, n: nat, sum: real, eps: real) {
    inv > 0.0 && inv * inv * (sum + n as real * eps) == n as real
  }

  lemma SquaresSum(m: Mem, fused: bool, n: nat)
    ensures Total(Squares(m, fused, n), n) == SquareSum(m, fused, n)
  {
    TotalIsSum(Squares(m, fused, n), n, (i: nat) => Entry(m, fused, i) * Entry(m, fused, i));
  }

  lemma QuotientShare(total: real, n: real, eps: real)
    requires n > 0.0
    ensures (Quotient(total, n) + eps) * n == total + n * eps
  {
    assert total / n * n == total;
  }

  lemma PositiveFactor(v: real, n: real)
    requires n > 0.0 && v * n > 0.0
    ensures v > 0.0
  {
  }

  lemma Reciprocal(r: real, v: real)
    requires r >= 0.0 && r * r == v && v > 0.0
    ensures Quotient(1.0, r) > 0.0 && Quotient(1.0, r) * Quotient(1.0, r) * v == 1.0
  {
    var q := Quotient(1.0, r);
    assert r > 0.0;
    assert q * r == 1.0;
    assert q * q * v == (q * r) * (q * r);
  }

  lemma RootNormalises(sqrt: real -> real, eps: real, n: nat, total: real)
    requires RootLaws(sqrt) && n > 0 && total + n as real * eps > 0.0
    ensures Normalises(InvRoot(sqrt, eps, n, total), n, total, eps)
  {
    var k := n as real;
    var v := Quotient(total, k) + eps;
    QuotientShare(total, k, eps);
    PositiveFactor(v, k);
    Reciprocal(sqrt(v), v);
    var inv := Quotient(1.0, sqrt(v));
    assert inv * inv * (v * k) == inv * inv * v * k;
  }

  // Under every schedule, rms_norm_reduce and add_rms_norm_reduce write the number that brings the
  // mean of the squares, with eps added, to one.
  lemma ReduceNormalises(m: Mem, fused: bool, n: nat, w: Count, sqrt: real -> real, eps: real, trace: seq<Event>)
    requires RootLaws(sqrt) && PowerOfTwo(w) && n > 0 && SquareSum(m, fused, n) + n as real * eps > 0.0
    requires var k := ReduceKernel(fused, n, w, sqrt, eps); Finishes(k[0], k[1..], trace)
    ensures var k := ReduceKernel(fused, n, w, sqrt, eps); Normalises(Get(Run(m, k[0], k[1..], trace), OutRms), n, SquareSum(m, fused, n), eps)
  {
    hide InvRoot, Squares, SquareSum, Normalises, ReduceKernel, RootLaws;
    ReduceComputes(m, fused, n, w, sqrt, eps, trace);
    SquaresSum(m, fused, n);
    RootNormalises(sqrt, eps, n, SquareSum(m, fused, n));
  }

  // ---- rms_norm ---------------------------------------------------------------------------------------

  // Under every schedule, rms_norm scales every entry by its weight and by one such number.
  lemma RmsNormNormalises(m: Mem, n: nat, w: Count, sqrt: real -> real, eps: real, trace: seq<Event>) returns (inv: real)
    requires RootLaws(sqrt) && PowerOfTwo(w) && n > 0 && SquareSum(m, false, n) + n as real * eps > 0.0
    requires var k := RmsNormKernel(n, w, sqrt, eps); Finishes(k[0], k[1..], trace)
    ensures Normalises(inv, n, SquareSum(m, false, n), eps)
    ensures var k := RmsNormKernel(n, w, sqrt, eps); var r := Run(m, k[0], k[1..], trace);
            forall i: nat :: i < n ==> Get(r, Y(i)) == Get(m, X(i)) * inv * Get(m, NormW(i))
  {
    hide Squares, SquareSum, Normalises, RmsNormKernel, RootLaws, InvRoot;
    inv := InvRoot(sqrt, eps, n, Total(Squares(m, false, n), n));
    SquaresSum(m, false, n);
    RootNormalises(sqrt, eps, n, SquareSum(m, false, n));
    var k := RmsNormKernel(n, w, sqrt, eps);
    forall i: nat | i < n ensures Get(Run(m, k[0], k[1..], trace), Y(i)) == Get(m, X(i)) * inv * Get(m, NormW(i)) {
      RmsNormComputes(m, n, w, sqrt, eps, trace, i);
    }
  }

  lemma {:induction false} SumScales(f: nat -> real, g: nat -> real, c: real, n: nat)
    requires forall i: nat :: i < n ==> g(i) == c * f(i)
    ensures RangeSums.Sum(g, 0, n) == c * RangeSums.Sum(f, 0, n)
  {
    if n > 0 { SumScales(f, g, c, n - 1); }
  }

  function OutputSquareSum(r: Mem, n: nat): real {
    RangeSums.Sum((i: nat) => Get(r, Y(i)) * Get(r, Y(i)), 0, n)
  }

  predicate ScaledAt(m: Mem, r: Mem, inv: real, i: nat) {
    Get(r, Y(i)) == Get(m, X(i)) * inv
  }

  lemma SquareScaled(x: real, y: real, inv: real)
    requires y == x * inv
    ensures y * y == inv * inv * (x * x)
  {
  }

  lemma EntryScaled(m: Mem, r: Mem, inv: real, i: nat)
    requires ScaledAt(m, r, inv, i)
    ensures Get(r, Y(i)) * Get(r, Y(i)) == inv * inv * (Entry(m, false, i) * Entry(m, false, i))
  {
    SquareScaled(Get(m, X(i)), Get(r, Y(i)), inv);
  }

  lemma OutputsScaled(m: Mem, r: Mem, n: nat, inv: real)
    requires forall i: nat :: i < n ==> ScaledAt(m, r, inv, i)
    ensures OutputSquareSum(r, n) == inv * inv * SquareSum(m, false, n)
  {
    hide ScaledAt, Entry, Get;
    var f := (i: nat) => Entry(m, false, i) * Entry(m, false, i);
    var g := (i: nat) => Get(r, Y(i)) * Get(r, Y(i));
    forall i: nat | i < n ensures g(i) == inv * inv * f(i) {
      EntryScaled(m, r, inv, i);
    }
    SumScales(f, g, inv * inv, n);
  }

  // With unit weights the squares of the outputs add up to n, less the share of eps.
  lemma OutputsHaveUnitMean(m: Mem, n: nat, w: Count, sqrt: real -> real, eps: real, trace: seq<Event>) returns (inv: real)
    requires RootLaws(sqrt) && PowerOfTwo(w) && n > 0 && SquareSum(m, false, n) + n as real * eps > 0.0
    requires forall i: nat :: i < n ==> Get(m, NormW(i)) == 1.0
    requires var k := RmsNormKernel(n, w, sqrt, eps); Finishes(k[0], k[1..], trace)
    ensures Normalises(inv, n, SquareSum(m, false, n), eps)
    ensures var k := RmsNormKernel(n, w, sqrt, eps); OutputSquareSum(Run(m, k[0], k[1..], trace), n) + n as real * eps * inv * inv == n as real
  {
    hide SquareSum, OutputSquareSum, RmsNormKernel, RootLaws, PowerOfTwo, Finishes, Run;
    inv := RmsNormNormalises(m, n, w, sqrt, eps, trace);
    var k := RmsNormKernel(n, w, sqrt, eps);
    var r := Run(m, k[0], k[1..], trace);
    forall i: nat | i < n ensures ScaledAt(m, r, inv, i) {
      assert Get(m, NormW(i)) == 1.0;
    }
    OutputsScaled(m, r, n, inv);
    Distribute(inv, SquareSum(m, false, n), n as real * eps);
  }

  lemma Distribute(inv: real, a: real, b: real)
    ensures inv * inv * (a + b) == inv * inv * a + b * inv * inv
  {
  }

  // ---- what is multiplied -------------------------------------------------------------------------------

  lemma {:induction false} RowSumIsSum(x: nat -> real, row: Row, f: nat -> real)
    requires forall k: nat :: k < |row| ==> f(k) == row[k].1 * x(row[k].0)
    ensures RowSum(x, row) == RangeSums.Sum(f, 0, |row|)
  {
    if row != [] {
      var g := (k: nat) => f(k + 1);
      forall k: nat | k < |row[1..]| ensures g(k) == row[1..][k].1 * x(row[1..][k].0) {
        assert row[1..][k] == row[k + 1];
      }
      RowSumIsSum(x, row[1..], g);
      ShiftedSum(f, g, |row| - 1);
    }
  }

  lemma {:induction false} ShiftedSum(f: nat -> real, g: nat -> real, n: nat)
    requires forall k: nat :: k < n ==> g(k) == f(k + 1)
    ensures RangeSums.Sum(f, 0, n + 1) == f(0) + RangeSums.Sum(g, 0, n)
  {
    if n > 0 { ShiftedSum(f, g, n - 1); }
  }

  // An entry of the vector that a row is multiplied with: x itself, x normalised, or x plus the
  // residual normalised.
  function Multiplied(m: Mem, f: Fill, i: nat): real {
    match f
    case Plain => Get(m, X(i))
    case Normed(inv) => inv * Get(m, NormW(i)) * Entry(m, false, i)
    case AddNormed(inv) => inv * Get(m, NormW(i)) * Entry(m, true, i)
    case SharedNormed => Get(m, InvRms) * Get(m, NormW(i)) * Entry(m, false, i)
  }

  lemma FillIsMultiplied(m: Mem, f: Fill, i: nat)
    ensures FillValue(m, f, i) == Multiplied(m, f, i)
  {
  }

  // Under every schedule each row of the group is the sum of its weights times those entries.
  lemma MatvecSums(m: Mem, f: Fill, n: nat, rows: seq<Row>, first: nat, w: Count, trace: seq<Event>, lid: nat)
    requires lid < w && first + lid < |rows| && Within(rows[first + lid], n)
    requires var k := MatvecKernel(f, n, rows, first, w); Finishes(k[0], k[1..], trace)
    ensures var k, row := MatvecKernel(f, n, rows, first, w), rows[first + lid];
            Get(Run(m, k[0], k[1..], trace), Y(first + lid)) == RangeSums.Sum((e: nat) => if e < |row| then row[e].1 * Multiplied(m, f, row[e].0) else 0.0, 0, |row|)
  {
    hide FillValue, Multiplied, Within, MatvecKernel, Finishes, Run;
    var row := rows[first + lid];
    MatvecComputes(m, f, n, rows, first, w, trace, lid);
    var terms := (e: nat) => if e < |row| then row[e].1 * Multiplied(m, f, row[e].0) else 0.0;
    forall e: nat | e < |row| ensures terms(e) == row[e].1 * FillOf(m, f)(row[e].0) {
      FillIsMultiplied(m, f, row[e].0);
    }
    RowSumIsSum(FillOf(m, f), row, terms);
  }

  // Under every schedule add_norm writes the sum with the residual, normalised.
  lemma AddNormScales(m: Mem, inv: real, n: nat, w: Count, trace: seq<Event>, i: nat)
    requires i < n
    requires var k := AddNormKernel(inv, n, w); Finishes(k[0], k[1..], trace)
    ensures var k := AddNormKernel(inv, n, w); Get(Run(m, k[0], k[1..], trace), Y(i)) == (Get(m, X(i)) + Get(m, Residual(i))) * inv * Get(m, NormW(i))
  {
    AddNormComputes(m, inv, n, w, trace, i);
  }
}
