// What operations compute, and how their results move with their operands.
// Tensors are one-dimensional vectors of reals; rounding is not modelled.
module Values {
  import opened Tensors
  import RangeSums

  type Vec = seq<real>

  // The elementary functions are parameters; Calculus.dfy states the laws used of them.
  datatype Elementary = Elementary(
    sqrt: real -> real, log: real -> real, sin: real -> real, cos: real -> real, exp: real -> real)

  function At(v: Vec, i: int): real {
    if 0 <= i < |v| then v[i] else 0.0
  }

  function Quotient(a: real, b: real): real {
    if b == 0.0 then 0.0 else a / b
  }

  function Total(v: Vec, n: nat): real {
    if n == 0 then 0.0 else Total(v, n - 1) + At(v, n - 1)
  }

  // Sum of the first n entries of v whose index is j modulo m.
  function Fold(v: Vec, m: Count, j: nat, n: nat): real {
    if n == 0 then 0.0 else Fold(v, m, j, n - 1) + if (n - 1) % m == j then At(v, n - 1) else 0.0
  }

  function Dot(u: Vec, v: Vec, n: nat): real {
    if n == 0 then 0.0 else Dot(u, v, n - 1) + At(u, n - 1) * At(v, n - 1)
  }

  // A vector repeated up to length n.
  function Tile(v: Vec, n: nat): Vec
    requires |v| > 0
  {
    seq(n, i => At(v, i % |v|))
  }

  predicate IsBinary(op: Op) {
    op.Add? || op.Sub? || op.Mul? || op.Div?
  }

  predicate IsElementwise(op: Op) {
    op.Dup? || op.Sqr? || op.Sqrt? || op.Log? || op.Sin? || op.Cos? || op.Scale? || op.Neg? || op.Exp?
  }

  predicate HasOperands(t: Tensor, k: nat) {
    && k <= |t.src|
    && (forall j :: 0 <= j < k ==> t.src[j].Some?)
    && (forall j :: k <= j < |t.src| ==> t.src[j].None?)
  }

  // The operands and sizes that the constructors of the modelled operations produce.
  predicate Shaped(p: Pool, n: Id)
    requires n < |p|
  {
    var t := p[n];
    if t.op == NoOp then HasOperands(t, 0)
    else if IsBinary(t.op) || t.op.Add1? then
      && HasOperands(t, 2)
      && t.src[0].value < n && t.src[1].value < n
      && p[t.src[0].value].ne == t.ne
      && (if t.op.Add1? then p[t.src[1].value].ne == 1 else t.ne % p[t.src[1].value].ne == 0)
    else
      && !t.op.Cpy? && !t.op.Other?
      && HasOperands(t, 1)
      && t.src[0].value < n
      && (IsElementwise(t.op) ==> p[t.src[0].value].ne == t.ne)
      && (t.op.Sum? || t.op.Mean? ==> t.ne == 1)
      && (t.op.Repeat? ==> t.ne % p[t.src[0].value].ne == 0)
      && (t.op.RepeatBack? ==> p[t.src[0].value].ne % t.ne == 0)
  }

  // Entry i of the result, from the values of the first and second operand.
  function EvalAt(e: Elementary, op: Op, ne: Count, x: Vec, y: Vec, i: nat): real
    requires |x| > 0 && |y| > 0
  {
    match op
    case Dup => At(x, i)
    case Add => At(x, i) + At(y, i % |y|)
    case Add1 => At(x, i) + At(y, 0)
    case Sub => At(x, i) - At(y, i % |y|)
    case Mul => At(x, i) * At(y, i % |y|)
    case Div => Quotient(At(x, i), At(y, i % |y|))
    case Sqr => At(x, i) * At(x, i)
    case Sqrt => e.sqrt(At(x, i))
    case Log => e.log(At(x, i))
    case Sin => e.sin(At(x, i))
    case Cos => e.cos(At(x, i))
    case Sum => Total(x, |x|)
    case Mean => Total(x, |x|) / (|x| as real)
    case Repeat => At(x, i % |x|)
    case RepeatBack => Fold(x, ne, i, |x|)
    case Scale(s, b) => s * At(x, i) + b
    case Neg => -At(x, i)
    case Exp => e.exp(At(x, i))
    case _ => 0.0
  }

  lemma {:induction false} TotalIsSum(v: Vec, n: nat, f: nat -> real)
    requires n <= |v| && forall i: nat :: i < |v| ==> f(i) == v[i]
    ensures Total(v, n) == RangeSums.Sum(f, 0, n)
  {
    if n > 0 { TotalIsSum(v, n - 1, f); }
  }

  lemma {:induction false} FoldIsSum(v: Vec, m: Count, j: nat, n: nat, f: nat -> real)
    requires forall i: nat :: f(i) == if i % m == j then At(v, i) else 0.0
    ensures Fold(v, m, j, n) == RangeSums.Sum(f, 0, n)
  {
    if n > 0 { FoldIsSum(v, m, j, n - 1, f); }
  }

  // The operations that add entries: all of them, their mean, and those of one residue class.
  lemma ReductionsAre(e: Elementary, ne: Count, x: Vec, y: Vec, i: nat)
    requires |x| > 0 && |y| > 0
    ensures EvalAt(e, Op.Sum, ne, x, y, i) == RangeSums.Sum((k: nat) => At(x, k), 0, |x|)
    ensures EvalAt(e, Mean, ne, x, y, i) * |x| as real == RangeSums.Sum((k: nat) => At(x, k), 0, |x|)
    ensures EvalAt(e, RepeatBack, ne, x, y, i) == RangeSums.Sum((k: nat) => if k % ne == i then At(x, k) else 0.0, 0, |x|)
  {
    TotalIsSum(x, |x|, (k: nat) => At(x, k));
    FoldIsSum(x, ne, i, |x|, (k: nat) => if k % ne == i then At(x, k) else 0.0);
  }

  // Entry i of the tangent of the result, from values z (the result), x, y and tangents tx, ty.
  function TangentAt(e: Elementary, op: Op, ne: Count, z: Vec, x: Vec, y: Vec, tx: Vec, ty: Vec, i: nat): real
    requires |x| > 0 && |y| > 0
  {
    match op
    case Dup => At(tx, i)
    case Add => At(tx, i) + At(ty, i % |y|)
    case Add1 => At(tx, i) + At(ty, 0)
    case Sub => At(tx, i) - At(ty, i % |y|)
    case Mul => At(tx, i) * At(y, i % |y|) + At(x, i) * At(ty, i % |y|)
    case Div => Quotient(At(tx, i) - At(z, i) * At(ty, i % |y|), At(y, i % |y|))
    case Sqr => 2.0 * At(x, i) * At(tx, i)
    case Sqrt => Quotient(0.5 * At(tx, i), At(z, i))
    case Log => Quotient(At(tx, i), At(x, i))
    case Sin => e.cos(At(x, i)) * At(tx, i)
    case Cos => -e.sin(At(x, i)) * At(tx, i)
    case Sum => Total(tx, |x|)
    case Mean => Total(tx, |x|) / (|x| as real)
    case Repeat => At(tx, i % |x|)
    case RepeatBack => Fold(tx, ne, i, |x|)
    case Scale(s, _) => s * At(tx, i)
    case Neg => -At(tx, i)
    case Exp => At(z, i) * At(tx, i)
    case _ => 0.0
  }

  function First(t: Tensor): Id {
    if |t.src| > 0 && t.src[0].Some? then t.src[0].value else 0
  }

  function Second(t: Tensor): Id {
    if |t.src| > 1 && t.src[1].Some? then t.src[1].value else First(t)
  }

  ghost predicate Sized(p: Pool, val: seq<Vec>) {
    |p| <= |val| && forall n :: 0 <= n < |p| ==> |val[n]| == p[n].ne
  }

  // Tensor n holds what its operation computes from its operands.
  ghost predicate Computed(e: Elementary, p: Pool, val: seq<Vec>, n: Id)
    requires Sized(p, val) && n < |p|
  {
    var t := p[n];
    Shaped(p, n) && t.op != NoOp ==>
      forall i :: 0 <= i < t.ne ==> val[n][i] == EvalAt(e, t.op, t.ne, val[First(t)], val[Second(t)], i)
  }

  // An assignment of values to tensors that agrees with every operation.
  ghost predicate Evaluates(e: Elementary, p: Pool, val: seq<Vec>) {
    Sized(p, val) && forall n :: 0 <= n < |p| ==> Computed(e, p, val, n)
  }

  // Tangents agree with every operation, given values that do.
  ghost predicate TangentComputed(e: Elementary, p: Pool, val: seq<Vec>, tan: seq<Vec>, n: Id)
    requires Sized(p, val) && Sized(p, tan) && n < |p|
  {
    var t := p[n];
    Shaped(p, n) && t.op != NoOp ==>
      forall i :: 0 <= i < t.ne ==>
        tan[n][i] == TangentAt(e, t.op, t.ne, val[n], val[First(t)], val[Second(t)], tan[First(t)], tan[Second(t)], i)
  }

  // ---- inner products ------------------------------------------------------------------

  lemma {:induction false} DotZero(u: Vec, v: Vec, n: nat)
    requires forall i :: 0 <= i < n ==> At(v, i) == 0.0
    ensures Dot(u, v, n) == 0.0
  {
    if n > 0 { DotZero(u, v, n - 1); }
  }

  lemma {:induction false} DotMap(g: Vec, t: Vec, d: Vec, u: Vec, n: nat)
    requires forall i :: 0 <= i < n ==> At(g, i) * At(t, i) == At(d, i) * At(u, i)
    ensures Dot(g, t, n) == Dot(d, u, n)
  {
    if n > 0 { DotMap(g, t, d, u, n - 1); }
  }

  lemma {:induction false} DotConstant(d: Vec, t: Vec, a: real, n: nat)
    requires forall i :: 0 <= i < n ==> At(d, i) == a
    ensures Dot(d, t, n) == a * Total(t, n)
  {
    if n > 0 { DotConstant(d, t, a, n - 1); }
  }

  lemma {:induction false} DotUnit(d: Vec, t: Vec, n: nat, k: nat)
    requires k < n
    requires forall i :: 0 <= i < n ==> At(t, i) == if i == k then 1.0 else 0.0
    ensures Dot(d, t, n) == At(d, k)
  {
    if k == n - 1 { DotZero(d, t, n - 1); } else { DotUnit(d, t, n - 1, k); }
  }

  // The fold of each residue class, one more entry at a time.
  lemma {:induction false} FoldStep(g: Vec, t: Vec, before: Vec, after: Vec, m: Count, k: nat, n: nat)
    requires n <= m
    requires forall j :: 0 <= j < n ==> At(after, j) == At(before, j) + if k % m == j then At(g, k) else 0.0
    ensures Dot(after, t, n) == Dot(before, t, n) + if k % m < n then At(g, k) * At(t, k % m) else 0.0
  {
    if n > 0 {
      FoldStep(g, t, before, after, m, k, n - 1);
      assert At(after, n - 1) * At(t, n - 1) ==
        At(before, n - 1) * At(t, n - 1) + if k % m == n - 1 then At(g, k) * At(t, n - 1) else 0.0;
    }
  }

  function FoldVec(g: Vec, m: Count, n: nat): Vec {
    seq(m, (j: nat) => Fold(g, m, j, n))
  }

  lemma {:induction false} FoldAdjointPrefix(g: Vec, t: Vec, m: Count, n: nat)
    requires |t| == m
    ensures Dot(g, Tile(t, n), n) == Dot(FoldVec(g, m, n), t, m)
  {
    if n == 0 {
      DotMap(FoldVec(g, m, 0), t, t, FoldVec(g, m, 0), m);
      DotZero(t, FoldVec(g, m, 0), m);
    } else {
      FoldAdjointPrefix(g, t, m, n - 1);
      DotMap(g, Tile(t, n), g, Tile(t, n - 1), n - 1);
      FoldStep(g, t, FoldVec(g, m, n - 1), FoldVec(g, m, n), m, n - 1, m);
    }
  }

  // Repeating and folding are adjoint.
  lemma FoldAdjoint(g: Vec, tiled: Vec, folded: Vec, t: Vec, n: nat)
    requires |t| > 0
    requires forall i :: 0 <= i < n ==> At(tiled, i) == At(t, i % |t|)
    requires forall j :: 0 <= j < |t| ==> At(folded, j) == Fold(g, |t|, j, n)
    ensures Dot(g, tiled, n) == Dot(folded, t, |t|)
  {
    FoldAdjointPrefix(g, t, |t|, n);
    DotMap(g, tiled, g, Tile(t, n), n);
    DotMap(folded, t, FoldVec(g, |t|, n), t, |t|);
  }

  lemma {:induction false} DotSymmetric(u: Vec, v: Vec, n: nat)
    ensures Dot(u, v, n) == Dot(v, u, n)
  {
    if n > 0 { DotSymmetric(u, v, n - 1); }
  }

  lemma {:induction false} FoldZero(v: Vec, m: Count, j: nat, n: nat)
    requires forall i :: 0 <= i < n ==> At(v, i) == 0.0
    ensures Fold(v, m, j, n) == 0.0 && Total(v, n) == 0.0
  {
    if n > 0 { FoldZero(v, m, j, n - 1); }
  }
}
