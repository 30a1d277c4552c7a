// Tangents are derivatives: when one parameter entry moves, every entry of every node
// moves with the derivative that its tangent names.
module Derivatives {
  import opened Tensors
  import opened Values
  import opened Calculus

  // Values of the forward graph for each displacement h.
  type Family = real -> seq<Vec>

  function EntryAt(val: seq<Vec>, n: Id, i: nat): real {
    if n < |val| then At(val[n], i) else 0.0
  }

  function Entry(w: Family, n: Id, i: nat): real -> real {
    (h: real) => EntryAt(w(h), n, i)
  }

  function Shift(f: real -> real, x: real): real -> real {
    (h: real) => f(x + h)
  }

  // The laws of the elementary functions: each is differentiable where the operations need it.
  ghost predicate Lawful(e: Elementary) {
    && (forall x :: x > 0.0 ==> e.sqrt(x) != 0.0 && Derivative(Shift(e.sqrt, x), Quotient(0.5, e.sqrt(x))))
    && (forall x :: x > 0.0 ==> Derivative(Shift(e.log, x), Quotient(1.0, x)))
    && (forall x :: Derivative(Shift(e.sin, x), e.cos(x)))
    && (forall x :: Derivative(Shift(e.cos, x), -e.sin(x)))
    && (forall x :: Derivative(Shift(e.exp, x), e.exp(x)))
  }

  ghost predicate Follows(w: Family, tan: seq<Vec>, n: Id) {
    forall i: nat :: Derivative(Entry(w, n, i), EntryAt(tan, n, i))
  }

  // The operation of node n is differentiable at its operands' values.
  ghost predicate SmoothNode(p: Pool, val: seq<Vec>, n: Id)
    requires n < |p|
  {
    && First(p[n]) < |p| && Second(p[n]) < |p|
    && (p[n].op == Div ==> forall i :: 0 <= i < p[Second(p[n])].ne ==> EntryAt(val, Second(p[n]), i) != 0.0)
    && (p[n].op == Sqrt || p[n].op == Log ==> forall i :: 0 <= i < p[n].ne ==> EntryAt(val, First(p[n]), i) > 0.0)
  }

  // ---- compositions with elementary functions ---------------------------------------------------

  lemma Composed(f: real -> real, u: real -> real, s: real -> real, d: real, t: real)
    requires Derivative(Shift(f, u(0.0)), d) && Derivative(u, t) && forall h :: s(h) == f(u(h))
    ensures Derivative(s, d * t)
  {
    var fx := Shift(f, u(0.0));
    forall h ensures s(h) == fx(u(h) - u(0.0)) {
      assert u(0.0) + (u(h) - u(0.0)) == u(h);
    }
    ChainRule(fx, u, s, d, t);
  }

  lemma QuotientOfProduct(k: real, z: real, t: real)
    ensures Quotient(k, z) * t == Quotient(k * t, z)
  {
    if z != 0.0 {
      assert k / z * t == k * t / z;
    }
  }

  lemma SqrtRule(e: Elementary, u: real -> real, s: real -> real, t: real)
    requires Lawful(e) && u(0.0) > 0.0 && Derivative(u, t) && forall h :: s(h) == e.sqrt(u(h))
    ensures Derivative(s, Quotient(0.5 * t, s(0.0)))
  {
    var d := Quotient(0.5, e.sqrt(u(0.0)));
    Composed(e.sqrt, u, s, d, t);
    QuotientOfProduct(0.5, s(0.0), t);
    Restate(s, d * t, Quotient(0.5 * t, s(0.0)));
  }

  lemma LogRule(e: Elementary, u: real -> real, s: real -> real, t: real)
    requires Lawful(e) && u(0.0) > 0.0 && Derivative(u, t) && forall h :: s(h) == e.log(u(h))
    ensures Derivative(s, Quotient(t, u(0.0)))
  {
    var d := Quotient(1.0, u(0.0));
    Composed(e.log, u, s, d, t);
    QuotientOfProduct(1.0, u(0.0), t);
    Restate(s, d * t, Quotient(t, u(0.0)));
  }

  lemma SinRule(e: Elementary, u: real -> real, s: real -> real, t: real)
    requires Lawful(e) && Derivative(u, t) && forall h :: s(h) == e.sin(u(h))
    ensures Derivative(s, e.cos(u(0.0)) * t)
  {
    Composed(e.sin, u, s, e.cos(u(0.0)), t);
  }

  lemma CosRule(e: Elementary, u: real -> real, s: real -> real, t: real)
    requires Lawful(e) && Derivative(u, t) && forall h :: s(h) == e.cos(u(h))
    ensures Derivative(s, -e.sin(u(0.0)) * t)
  {
    var d := -e.sin(u(0.0));
    Composed(e.cos, u, s, d, t);
    Restate(s, d * t, -e.sin(u(0.0)) * t);
  }

  lemma ExpRule(e: Elementary, u: real -> real, s: real -> real, t: real)
    requires Lawful(e) && Derivative(u, t) && forall h :: s(h) == e.exp(u(h))
    ensures Derivative(s, s(0.0) * t)
  {
    var d := e.exp(u(0.0));
    Composed(e.exp, u, s, d, t);
    Restate(s, d * t, s(0.0) * t);
  }

  lemma SquareEntryRule(u: real -> real, s: real -> real, t: real)
    requires Derivative(u, t) && forall h :: s(h) == u(h) * u(h)
    ensures Derivative(s, 2.0 * u(0.0) * t)
  {
    SquareRule(u, s, t);
  }

  lemma AffineRule(u: real -> real, s: real -> real, k: real, b: real, t: real)
    requires Derivative(u, t) && forall h :: s(h) == k * u(h) + b
    ensures Derivative(s, k * t)
  {
    var f, c := (h: real) => k * u(h), (h: real) => b;
    var d := k * t;
    ScaleRule(u, f, k, t);
    ConstantRule(c);
    SumRule(f, c, s, d, 0.0);
    Restate(s, d + 0.0, d);
  }

  lemma NegationRule(u: real -> real, s: real -> real, t: real)
    requires Derivative(u, t) && forall h :: s(h) == -u(h)
    ensures Derivative(s, -t)
  {
    var k := -1.0;
    var d := k * t;
    ScaleRule(u, s, k, t);
    Restate(s, d, -t);
  }

  // ---- one entry of an operation on one or two entries ------------------------------------------

  function Elem(e: Elementary, op: Op, x: real): real {
    match op
    case Sqr => x * x
    case Sqrt => e.sqrt(x)
    case Log => e.log(x)
    case Sin => e.sin(x)
    case Cos => e.cos(x)
    case Scale(s, b) => s * x + b
    case Neg => -x
    case Exp => e.exp(x)
    case _ => x
  }

  function ElemTangent(e: Elementary, op: Op, z: real, x: real, t: real): real {
    match op
    case Sqr => 2.0 * x * t
    case Sqrt => Quotient(0.5 * t, z)
    case Log => Quotient(t, x)
    case Sin => e.cos(x) * t
    case Cos => -e.sin(x) * t
    case Scale(s, _) => s * t
    case Neg => -t
    case Exp => z * t
    case _ => t
  }

  lemma SqrFollows(e: Elementary, u: real -> real, s: real -> real, t: real)
    requires Derivative(u, t) && forall h :: s(h) == Elem(e, Sqr, u(h))
    ensures Derivative(s, ElemTangent(e, Sqr, s(0.0), u(0.0), t))
  {
    SquareEntryRule(u, s, t);
  }

  lemma SqrtFollows(e: Elementary, u: real -> real, s: real -> real, t: real)
    requires Lawful(e) && u(0.0) > 0.0 && Derivative(u, t) && forall h :: s(h) == Elem(e, Sqrt, u(h))
    ensures Derivative(s, ElemTangent(e, Sqrt, s(0.0), u(0.0), t))
  {
    SqrtRule(e, u, s, t);
  }

  lemma LogFollows(e: Elementary, u: real -> real, s: real -> real, t: real)
    requires Lawful(e) && u(0.0) > 0.0 && Derivative(u, t) && forall h :: s(h) == Elem(e, Log, u(h))
    ensures Derivative(s, ElemTangent(e, Log, s(0.0), u(0.0), t))
  {
    LogRule(e, u, s, t);
  }

  lemma SinFollows(e: Elementary, u: real -> real, s: real -> real, t: real)
    requires Lawful(e) && Derivative(u, t) && forall h :: s(h) == Elem(e, Sin, u(h))
    ensures Derivative(s, ElemTangent(e, Sin, s(0.0), u(0.0), t))
  {
    SinRule(e, u, s, t);
    Restate(s, e.cos(u(0.0)) * t, ElemTangent(e, Sin, s(0.0), u(0.0), t));
  }

  lemma CosFollows(e: Elementary, u: real -> real, s: real -> real, t: real)
    requires Lawful(e) && Derivative(u, t) && forall h :: s(h) == Elem(e, Cos, u(h))
    ensures Derivative(s, ElemTangent(e, Cos, s(0.0), u(0.0), t))
  {
    CosRule(e, u, s, t);
    Restate(s, -e.sin(u(0.0)) * t, ElemTangent(e, Cos, s(0.0), u(0.0), t));
  }

  lemma ScaleFollows(e: Elementary, k: real, b: real, u: real -> real, s: real -> real, t: real)
    requires Derivative(u, t) && forall h :: s(h) == Elem(e, Scale(k, b), u(h))
    ensures Derivative(s, ElemTangent(e, Scale(k, b), s(0.0), u(0.0), t))
  {
    AffineRule(u, s, k, b, t);
    Restate(s, k * t, ElemTangent(e, Scale(k, b), s(0.0), u(0.0), t));
  }

  lemma NegFollows(e: Elementary, u: real -> real, s: real -> real, t: real)
    requires Derivative(u, t) && forall h :: s(h) == Elem(e, Neg, u(h))
    ensures Derivative(s, ElemTangent(e, Neg, s(0.0), u(0.0), t))
  {
    NegationRule(u, s, t);
  }

  lemma ExpFollows(e: Elementary, u: real -> real, s: real -> real, t: real)
    requires Lawful(e) && Derivative(u, t) && forall h :: s(h) == Elem(e, Exp, u(h))
    ensures Derivative(s, ElemTangent(e, Exp, s(0.0), u(0.0), t))
  {
    ExpRule(e, u, s, t);
  }

  lemma ElemFollows(e: Elementary, op: Op, u: real -> real, s: real -> real, t: real)
    requires Lawful(e) && Derivative(u, t) && (op.Sqrt? || op.Log? ==> u(0.0) > 0.0)
    requires forall h :: s(h) == Elem(e, op, u(h))
    ensures Derivative(s, ElemTangent(e, op, s(0.0), u(0.0), t))
  {
    match op
    case Sqr => SqrFollows(e, u, s, t);
    case Sqrt => SqrtFollows(e, u, s, t);
    case Log => LogFollows(e, u, s, t);
    case Sin => SinFollows(e, u, s, t);
    case Cos => CosFollows(e, u, s, t);
    case Scale(k, b) => ScaleFollows(e, k, b, u, s, t);
    case Neg => NegFollows(e, u, s, t);
    case Exp => ExpFollows(e, u, s, t);
    case _ => SameDerivative(u, s, t);
  }

  function Pair(op: Op, x: real, y: real): real {
    match op
    case Sub => x - y
    case Mul => x * y
    case Div => Quotient(x, y)
    case _ => x + y
  }

  function PairTangent(op: Op, z: real, x: real, y: real, tx: real, ty: real): real {
    match op
    case Sub => tx - ty
    case Mul => tx * y + x * ty
    case Div => Quotient(tx - z * ty, y)
    case _ => tx + ty
  }

  lemma PairFollows(op: Op, f: real -> real, g: real -> real, s: real -> real, tx: real, ty: real)
    requires Derivative(f, tx) && Derivative(g, ty) && (op.Div? ==> g(0.0) != 0.0)
    requires forall h :: s(h) == Pair(op, f(h), g(h))
    ensures Derivative(s, PairTangent(op, s(0.0), f(0.0), g(0.0), tx, ty))
  {
    match op
    case Sub => DifferenceRule(f, g, s, tx, ty);
    case Mul => ProductRule(f, g, s, tx, ty);
    case Div => QuotientRule(f, g, s, tx, ty);
    case _ => SumRule(f, g, s, tx, ty);
  }

  // ---- sums of entries ------------------------------------------------------------------------------

  function TotalAt(val: seq<Vec>, n: Id, k: nat): real {
    if n < |val| then Total(val[n], k) else 0.0
  }

  function FoldAt(val: seq<Vec>, n: Id, m: Count, j: nat, k: nat): real {
    if n < |val| then Fold(val[n], m, j, k) else 0.0
  }

  function TotalOf(w: Family, n: Id, k: nat): real -> real {
    (h: real) => TotalAt(w(h), n, k)
  }

  function FoldOf(w: Family, n: Id, m: Count, j: nat, k: nat): real -> real {
    (h: real) => FoldAt(w(h), n, m, j, k)
  }

  lemma TotalStep(val: seq<Vec>, n: Id, k: nat)
    ensures TotalAt(val, n, 0) == 0.0
    ensures k > 0 ==> TotalAt(val, n, k) == TotalAt(val, n, k - 1) + EntryAt(val, n, k - 1)
  {
  }

  lemma FoldAtStep(val: seq<Vec>, n: Id, m: Count, j: nat, k: nat)
    ensures FoldAt(val, n, m, j, 0) == 0.0
    ensures k > 0 ==> FoldAt(val, n, m, j, k) == FoldAt(val, n, m, j, k - 1) + if (k - 1) % m == j then EntryAt(val, n, k - 1) else 0.0
  {
  }

  lemma {:induction false} TotalRule(w: Family, tan: seq<Vec>, n: Id, k: nat)
    requires Follows(w, tan, n) && n < |tan|
    ensures Derivative(TotalOf(w, n, k), Total(tan[n], k))
  {
    var s := TotalOf(w, n, k);
    if k == 0 {
      forall h ensures s(h) == s(0.0) { TotalStep(w(h), n, 0); TotalStep(w(0.0), n, 0); }
      ConstantRule(s);
    } else {
      TotalRule(w, tan, n, k - 1);
      assert Derivative(Entry(w, n, k - 1), EntryAt(tan, n, k - 1));
      forall h ensures s(h) == TotalOf(w, n, k - 1)(h) + Entry(w, n, k - 1)(h) { TotalStep(w(h), n, k); }
      SumRule(TotalOf(w, n, k - 1), Entry(w, n, k - 1), s, Total(tan[n], k - 1), EntryAt(tan, n, k - 1));
    }
  }

  lemma {:induction false} FoldRule(w: Family, tan: seq<Vec>, n: Id, m: Count, j: nat, k: nat)
    requires Follows(w, tan, n) && n < |tan|
    ensures Derivative(FoldOf(w, n, m, j, k), Fold(tan[n], m, j, k))
  {
    var s := FoldOf(w, n, m, j, k);
    if k == 0 {
      forall h ensures s(h) == s(0.0) { FoldAtStep(w(h), n, m, j, 0); FoldAtStep(w(0.0), n, m, j, 0); }
      ConstantRule(s);
    } else {
      FoldRule(w, tan, n, m, j, k - 1);
      var f, d := FoldOf(w, n, m, j, k - 1), Fold(tan[n], m, j, k - 1);
      forall h ensures s(h) == f(h) + if (k - 1) % m == j then Entry(w, n, k - 1)(h) else 0.0 { FoldAtStep(w(h), n, m, j, k); }
      if (k - 1) % m == j {
        assert Derivative(Entry(w, n, k - 1), EntryAt(tan, n, k - 1));
        SumRule(f, Entry(w, n, k - 1), s, d, EntryAt(tan, n, k - 1));
      } else {
        SameDerivative(f, s, d);
      }
    }
  }

  // ---- one node ----------------------------------------------------------------------------------------

  // Every member of the family computes node n from its operands; val is the member at rest.
  ghost predicate FamilyAt(e: Elementary, p: Pool, w: Family, tan: seq<Vec>, n: Id) {
    && n < |p| && Shaped(p, n) && p[n].op != NoOp
    && (forall h :: Sized(p, w(h)) && Computed(e, p, w(h), n))
    && Sized(p, tan) && TangentComputed(e, p, w(0.0), tan, n)
    && Follows(w, tan, First(p[n])) && Follows(w, tan, Second(p[n]))
    && SmoothNode(p, w(0.0), n)
  }

  lemma EntryValue(e: Elementary, p: Pool, w: Family, tan: seq<Vec>, n: Id, i: nat, h: real)
    requires FamilyAt(e, p, w, tan, n) && i < p[n].ne
    ensures First(p[n]) < |w(h)| && Second(p[n]) < |w(h)| && |w(h)[First(p[n])]| == p[First(p[n])].ne && |w(h)[Second(p[n])]| == p[Second(p[n])].ne
    ensures First(p[n]) < |p| && Second(p[n]) < |p|
    ensures Entry(w, n, i)(h) == EvalAt(e, p[n].op, p[n].ne, w(h)[First(p[n])], w(h)[Second(p[n])], i)
  {
    assert Sized(p, w(h)) && Computed(e, p, w(h), n);
  }

  lemma EntryTangent(e: Elementary, p: Pool, w: Family, tan: seq<Vec>, n: Id, i: nat)
    requires FamilyAt(e, p, w, tan, n) && i < p[n].ne
    ensures First(p[n]) < |tan| && Second(p[n]) < |tan| && First(p[n]) < |w(0.0)| && Second(p[n]) < |w(0.0)| && n < |w(0.0)|
    ensures |w(0.0)[First(p[n])]| == p[First(p[n])].ne && |w(0.0)[Second(p[n])]| == p[Second(p[n])].ne
    ensures EntryAt(tan, n, i) == TangentAt(e, p[n].op, p[n].ne, w(0.0)[n], w(0.0)[First(p[n])], w(0.0)[Second(p[n])], tan[First(p[n])], tan[Second(p[n])], i)
  {
    assert Sized(p, w(0.0));
  }

  lemma ElemEval(e: Elementary, op: Op, ne: Count, z: Vec, x: Vec, y: Vec, tx: Vec, ty: Vec, i: nat)
    requires |x| > 0 && |y| > 0 && IsElementwise(op)
    ensures EvalAt(e, op, ne, x, y, i) == Elem(e, op, At(x, i))
    ensures TangentAt(e, op, ne, z, x, y, tx, ty, i) == ElemTangent(e, op, At(z, i), At(x, i), At(tx, i))
  {
    match op
    case Dup =>
    case Sqr =>
    case Sqrt =>
    case Log =>
    case Sin =>
    case Cos =>
    case Scale(k, b) =>
    case Neg =>
    case Exp =>
  }

  lemma PairEval(e: Elementary, op: Op, ne: Count, z: Vec, x: Vec, y: Vec, tx: Vec, ty: Vec, i: nat, j: nat)
    requires |x| > 0 && |y| > 0 && (IsBinary(op) || op.Add1?) && j == if op.Add1? then 0 else i % |y|
    ensures EvalAt(e, op, ne, x, y, i) == Pair(op, At(x, i), At(y, j))
    ensures TangentAt(e, op, ne, z, x, y, tx, ty, i) == PairTangent(op, At(z, i), At(x, i), At(y, j), At(tx, i), At(ty, j))
  {
    match op
    case Add =>
    case Add1 =>
    case Sub =>
    case Mul =>
    case Div =>
  }

  lemma ElementwiseFollows(e: Elementary, p: Pool, w: Family, tan: seq<Vec>, n: Id, i: nat)
    requires Lawful(e) && FamilyAt(e, p, w, tan, n) && i < p[n].ne && IsElementwise(p[n].op)
    ensures Derivative(Entry(w, n, i), EntryAt(tan, n, i))
  {
    var x, op := First(p[n]), p[n].op;
    var u, s, t := Entry(w, x, i), Entry(w, n, i), EntryAt(tan, x, i);
    forall h ensures s(h) == Elem(e, op, u(h)) {
      EntryValue(e, p, w, tan, n, i, h);
      ElemEval(e, op, p[n].ne, [], w(h)[x], w(h)[Second(p[n])], [], [], i);
    }
    EntryTangent(e, p, w, tan, n, i);
    var v := w(0.0);
    ElemEval(e, op, p[n].ne, v[n], v[x], v[Second(p[n])], tan[x], tan[Second(p[n])], i);
    ElemFollows(e, op, u, s, t);
  }

  lemma BinaryFollows(e: Elementary, p: Pool, w: Family, tan: seq<Vec>, n: Id, i: nat, j: nat)
    requires FamilyAt(e, p, w, tan, n) && i < p[n].ne && (IsBinary(p[n].op) || p[n].op == Add1)
    requires j == if p[n].op == Add1 then 0 else i % p[Second(p[n])].ne
    ensures Derivative(Entry(w, n, i), EntryAt(tan, n, i))
  {
    var x, y, op := First(p[n]), Second(p[n]), p[n].op;
    var f, g, s := Entry(w, x, i), Entry(w, y, j), Entry(w, n, i);
    var tx, ty := EntryAt(tan, x, i), EntryAt(tan, y, j);
    forall h ensures s(h) == Pair(op, f(h), g(h)) {
      EntryValue(e, p, w, tan, n, i, h);
      PairEval(e, op, p[n].ne, [], w(h)[x], w(h)[y], [], [], i, j);
    }
    EntryTangent(e, p, w, tan, n, i);
    var v := w(0.0);
    PairEval(e, op, p[n].ne, v[n], v[x], v[y], tan[x], tan[y], i, j);
    PairFollows(op, f, g, s, tx, ty);
  }

  lemma ShapingEval(e: Elementary, op: Op, ne: Count, z: Vec, x: Vec, y: Vec, tx: Vec, ty: Vec, i: nat)
    requires |x| > 0 && |y| > 0
    ensures op.Sum? ==> EvalAt(e, op, ne, x, y, i) == Total(x, |x|) && TangentAt(e, op, ne, z, x, y, tx, ty, i) == Total(tx, |x|)
    ensures op.Mean? ==> EvalAt(e, op, ne, x, y, i) == Total(x, |x|) / (|x| as real)
    ensures op.Mean? ==> TangentAt(e, op, ne, z, x, y, tx, ty, i) == Total(tx, |x|) / (|x| as real)
    ensures op.Repeat? ==> EvalAt(e, op, ne, x, y, i) == At(x, i % |x|) && TangentAt(e, op, ne, z, x, y, tx, ty, i) == At(tx, i % |x|)
    ensures op.RepeatBack? ==> EvalAt(e, op, ne, x, y, i) == Fold(x, ne, i, |x|)
    ensures op.RepeatBack? ==> TangentAt(e, op, ne, z, x, y, tx, ty, i) == Fold(tx, ne, i, |x|)
  {
  }

  lemma RepeatFollows(e: Elementary, p: Pool, w: Family, tan: seq<Vec>, n: Id, i: nat)
    requires FamilyAt(e, p, w, tan, n) && i < p[n].ne && p[n].op == Repeat
    ensures Derivative(Entry(w, n, i), EntryAt(tan, n, i))
  {
    var x, y := First(p[n]), Second(p[n]);
    var j: nat := i % p[x].ne;
    var u, s := Entry(w, x, j), Entry(w, n, i);
    forall h ensures u(h) == s(h) {
      EntryValue(e, p, w, tan, n, i, h);
      ShapingEval(e, Repeat, p[n].ne, [], w(h)[x], w(h)[y], [], [], i);
    }
    EntryTangent(e, p, w, tan, n, i);
    var v := w(0.0);
    ShapingEval(e, Repeat, p[n].ne, v[n], v[x], v[y], tan[x], tan[y], i);
    SameDerivative(u, s, EntryAt(tan, x, j));
  }

  lemma RepeatBackFollows(e: Elementary, p: Pool, w: Family, tan: seq<Vec>, n: Id, i: nat)
    requires FamilyAt(e, p, w, tan, n) && i < p[n].ne && p[n].op == RepeatBack
    ensures Derivative(Entry(w, n, i), EntryAt(tan, n, i))
  {
    var x, y, m := First(p[n]), Second(p[n]), p[n].ne;
    EntryTangent(e, p, w, tan, n, i);
    var u, s := FoldOf(w, x, m, i, p[x].ne), Entry(w, n, i);
    forall h ensures u(h) == s(h) {
      EntryValue(e, p, w, tan, n, i, h);
      ShapingEval(e, RepeatBack, m, [], w(h)[x], w(h)[y], [], [], i);
    }
    var v := w(0.0);
    ShapingEval(e, RepeatBack, m, v[n], v[x], v[y], tan[x], tan[y], i);
    FoldRule(w, tan, x, m, i, p[x].ne);
    SameDerivative(u, s, Fold(tan[x], m, i, p[x].ne));
  }

  lemma SumFollows(e: Elementary, p: Pool, w: Family, tan: seq<Vec>, n: Id, i: nat)
    requires FamilyAt(e, p, w, tan, n) && i < p[n].ne && p[n].op == Sum
    ensures Derivative(Entry(w, n, i), EntryAt(tan, n, i))
  {
    var x, y := First(p[n]), Second(p[n]);
    EntryTangent(e, p, w, tan, n, i);
    var u, s := TotalOf(w, x, p[x].ne), Entry(w, n, i);
    forall h ensures u(h) == s(h) {
      EntryValue(e, p, w, tan, n, i, h);
      ShapingEval(e, Sum, p[n].ne, [], w(h)[x], w(h)[y], [], [], i);
    }
    var v := w(0.0);
    ShapingEval(e, Sum, p[n].ne, v[n], v[x], v[y], tan[x], tan[y], i);
    TotalRule(w, tan, x, p[x].ne);
    SameDerivative(u, s, Total(tan[x], p[x].ne));
  }

  lemma MeanAsScale(t: real, m: real)
    requires m > 0.0
    ensures 1.0 / m * t == t / m
  {
  }

  lemma MeanRule(u: real -> real, s: real -> real, d: real, m: real)
    requires m > 0.0 && Derivative(u, d) && forall h :: s(h) == u(h) / m
    ensures Derivative(s, d / m)
  {
    var k := 1.0 / m;
    forall h ensures s(h) == k * u(h) { MeanAsScale(u(h), m); }
    ScaleRule(u, s, k, d);
    MeanAsScale(d, m);
    Restate(s, k * d, d / m);
  }

  lemma MeanFollows(e: Elementary, p: Pool, w: Family, tan: seq<Vec>, n: Id, i: nat)
    requires FamilyAt(e, p, w, tan, n) && i < p[n].ne && p[n].op == Mean
    ensures Derivative(Entry(w, n, i), EntryAt(tan, n, i))
  {
    var x, y := First(p[n]), Second(p[n]);
    EntryTangent(e, p, w, tan, n, i);
    var u, s, m := TotalOf(w, x, p[x].ne), Entry(w, n, i), p[x].ne as real;
    forall h ensures s(h) == u(h) / m {
      EntryValue(e, p, w, tan, n, i, h);
      ShapingEval(e, Mean, p[n].ne, [], w(h)[x], w(h)[y], [], [], i);
    }
    var v := w(0.0);
    ShapingEval(e, Mean, p[n].ne, v[n], v[x], v[y], tan[x], tan[y], i);
    TotalRule(w, tan, x, p[x].ne);
    MeanRule(u, s, Total(tan[x], p[x].ne), m);
  }

  lemma OutsideFollows(p: Pool, w: Family, tan: seq<Vec>, n: Id, i: nat)
    requires n < |p| && Sized(p, tan) && (forall h :: Sized(p, w(h))) && i >= p[n].ne
    ensures Derivative(Entry(w, n, i), EntryAt(tan, n, i))
  {
    var s := Entry(w, n, i);
    forall h ensures s(h) == 0.0 {
      assert Sized(p, w(h));
    }
    ConstantRule(s);
  }

  // Every entry of an operation moves as its tangent says when its operands do.
  lemma NodeFollows(e: Elementary, p: Pool, w: Family, tan: seq<Vec>, n: Id)
    requires Lawful(e) && FamilyAt(e, p, w, tan, n)
    ensures Follows(w, tan, n)
  {
    var op := p[n].op;
    forall i: nat ensures Derivative(Entry(w, n, i), EntryAt(tan, n, i)) {
      if i >= p[n].ne { OutsideFollows(p, w, tan, n, i); }
      else if IsElementwise(op) { ElementwiseFollows(e, p, w, tan, n, i); }
      else if IsBinary(op) { BinaryFollows(e, p, w, tan, n, i, i % p[Second(p[n])].ne); }
      else if op == Add1 { BinaryFollows(e, p, w, tan, n, i, 0); }
      else if op == Repeat { RepeatFollows(e, p, w, tan, n, i); }
      else if op == RepeatBack { RepeatBackFollows(e, p, w, tan, n, i); }
      else if op == Sum { SumFollows(e, p, w, tan, n, i); }
      else { MeanFollows(e, p, w, tan, n, i); }
    }
  }
}
