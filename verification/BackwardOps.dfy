// Operation by operation: what the gradient code delivers to each operand carries the
// gradient of the node to that operand.
module BackwardOps {
  import opened Tensors
  import opened Values
  import opened GraphBuild
  import opened Backward
  import opened BackwardFacts

  // ---- serving one operand -----------------------------------------------------------------

  // What the gradient of an operand of size n grows by, from the value u of the handed tensor.
  function Delivered(u: Vec, how: How, n: nat): Vec {
    match how
    case AddTo => u
    case SubFrom => Negated(u)
    case AddScalar => Constant(At(u, 0), n)
  }

  // The planned tensors are in the final pool, from position z on.
  ghost predicate Planned(v: Env, plan: Plan, z: nat) {
    && |plan.emit| <= 2 && z + |plan.emit| <= |v.pf|
    && (|plan.emit| > 0 ==> v.pf[z] == plan.emit[0])
    && (|plan.emit| > 1 ==> v.pf[z + 1] == plan.emit[1])
  }

  function HandedSize(b: Tape, plan: Plan, g: Id): Count
    requires g < |b.p|
  {
    if |plan.emit| == 0 then b.p[g].ne else plan.emit[|plan.emit| - 1].ne
  }

  lemma EmitAllSound(v: Env, b: Tape, plan: Plan)
    requires TapeSound(v, b) && PlanOk(plan, |b.p|) && EmitAll(b, plan).p <= v.pf
    ensures TapeSound(v, EmitAll(b, plan)) && Planned(v, plan, |b.p|)
  {
    var c := EmitAll(b, plan);
    assert forall n :: 0 <= n < |b.p| ==> c.p[n] == b.p[n];
    if |plan.emit| > 0 { assert c.p[|b.p|] == plan.emit[0]; }
    if |plan.emit| > 1 { assert c.p[|b.p| + 1] == plan.emit[1]; }
  }

  lemma AccumulateAdds(v: Env, o: Order, b: Tape, how: How, x: Id, h: Id)
    requires EnvOk(v) && TapeSound(v, b) && x < |v.p| && h < |b.p|
    requires b.p[h].ne == if how == AddScalar then 1 else v.p[x].ne
    requires Accumulate(o, b, how, x, h).p <= v.pf
    ensures h < |v.val| && Adds(v, b, Accumulate(o, b, how, x, h), x, Delivered(v.val[h], how, v.p[x].ne))
  {
    match how
    case AddTo => AddOrSetAdds(v, o, b, x, h);
    case SubFrom => SubOrSetAdds(v, o, b, x, h);
    case AddScalar => Add1OrSetAdds(v, o, b, x, h);
  }

  lemma PrefixLimit(b: Tape, c: Tape, pf: Pool)
    requires Extends(b, c) && c.p <= pf
    ensures b.p <= pf
  {
  }

  lemma ServeAdds(v: Env, o: Order, b: Tape, plan: Plan, x: Id, g: Id)
    requires EnvOk(v) && TapeSound(v, b) && PlanOk(plan, |b.p|) && x < |v.p| && g < |b.p|
    requires HandedSize(b, plan, g) == if plan.how == AddScalar then 1 else v.p[x].ne
    requires Serve(o, b, plan, x, g).p <= v.pf
    ensures Planned(v, plan, |b.p|) && Handed(|b.p|, plan, g) < |v.val|
    ensures Adds(v, b, Serve(o, b, plan, x, g), x, Delivered(v.val[Handed(|b.p|, plan, g)], plan.how, v.p[x].ne))
  {
    hide Accumulate, Delivered;
    var c, h := EmitAll(b, plan), Handed(|b.p|, plan, g);
    PrefixLimit(c, Serve(o, b, plan, x, g), v.pf);
    EmitAllSound(v, b, plan);
    assert c.p[h].ne == HandedSize(b, plan, g);
    AccumulateAdds(v, o, c, plan.how, x, h);
    AddsAfterEmit(v, b, c, Serve(o, b, plan, x, g), x, Delivered(v.val[h], plan.how, v.p[x].ne));
  }

  // ---- vectors alone ------------------------------------------------------------------------
  // g is the gradient of a node, t the part of its tangent due to one operand, d what that
  // operand receives and u the operand's tangent; q is an intermediate tensor.

  lemma {:induction false} CopyDot(g: Vec, t: Vec, u: Vec, n: nat)
    requires forall i :: 0 <= i < n ==> At(t, i) == At(u, i)
    ensures Dot(g, t, n) == Dot(g, u, n)
  {
    if n > 0 { CopyDot(g, t, u, n - 1); }
  }

  lemma NegatedDot(g: Vec, t: Vec, u: Vec, n: nat)
    requires |g| >= n
    requires forall i :: 0 <= i < n ==> At(t, i) == -At(u, i)
    ensures Dot(g, t, n) == Dot(Negated(g), u, n)
  {
    forall i | 0 <= i < n ensures At(g, i) * At(t, i) == At(Negated(g), i) * At(u, i) {
      assert At(Negated(g), i) == -At(g, i);
      ProductEntry(At(g, i), 1.0, At(u, i));
    }
    DotMap(g, t, Negated(g), u, n);
  }

  lemma ScaledDot(g: Vec, t: Vec, d: Vec, u: Vec, k: real, n: nat)
    requires forall i :: 0 <= i < n ==> At(d, i) == k * At(g, i)
    requires forall i :: 0 <= i < n ==> At(t, i) == k * At(u, i)
    ensures Dot(g, t, n) == Dot(d, u, n)
  {
    forall i | 0 <= i < n ensures At(g, i) * At(t, i) == At(d, i) * At(u, i) {
      ProductEntry(At(g, i), k, At(u, i));
    }
    DotMap(g, t, d, u, n);
  }

  lemma FactorDot(g: Vec, t: Vec, d: Vec, u: Vec, f: Vec, n: nat)
    requires forall i :: 0 <= i < n ==> At(d, i) == At(g, i) * At(f, i) || At(d, i) == At(f, i) * At(g, i)
    requires forall i :: 0 <= i < n ==> At(t, i) == At(f, i) * At(u, i)
    ensures Dot(g, t, n) == Dot(d, u, n)
  {
    forall i | 0 <= i < n ensures At(g, i) * At(t, i) == At(d, i) * At(u, i) {
      ProductEntry(At(g, i), At(f, i), At(u, i));
    }
    DotMap(g, t, d, u, n);
  }

  lemma SinDot(e: Elementary, g: Vec, t: Vec, q: Vec, d: Vec, u: Vec, x: Vec, n: nat)
    requires forall i :: 0 <= i < n ==> At(q, i) == e.cos(At(x, i))
    requires forall i :: 0 <= i < n ==> At(d, i) == At(g, i) * At(q, i)
    requires forall i :: 0 <= i < n ==> At(t, i) == e.cos(At(x, i)) * At(u, i)
    ensures Dot(g, t, n) == Dot(d, u, n)
  {
    FactorDot(g, t, d, u, q, n);
  }

  lemma CosDot(e: Elementary, g: Vec, t: Vec, q: Vec, d: Vec, u: Vec, x: Vec, n: nat)
    requires |d| >= n
    requires forall i :: 0 <= i < n ==> At(q, i) == e.sin(At(x, i))
    requires forall i :: 0 <= i < n ==> At(d, i) == At(g, i) * At(q, i)
    requires forall i :: 0 <= i < n ==> At(t, i) == -e.sin(At(x, i)) * At(u, i)
    ensures Dot(g, t, n) == Dot(Negated(d), u, n)
  {
    forall i | 0 <= i < n ensures At(g, i) * At(t, i) == At(Negated(d), i) * At(u, i) {
      assert At(Negated(d), i) == -At(d, i);
      ProductEntry(At(g, i), At(q, i), At(u, i));
    }
    DotMap(g, t, Negated(d), u, n);
  }

  lemma SquareDot(g: Vec, t: Vec, q: Vec, d: Vec, u: Vec, x: Vec, n: nat)
    requires forall i :: 0 <= i < n ==> At(q, i) == At(x, i) * At(g, i)
    requires forall i :: 0 <= i < n ==> At(d, i) == 2.0 * At(q, i)
    requires forall i :: 0 <= i < n ==> At(t, i) == 2.0 * At(x, i) * At(u, i)
    ensures Dot(g, t, n) == Dot(d, u, n)
  {
    forall i | 0 <= i < n ensures At(g, i) * At(t, i) == At(d, i) * At(u, i) {
      SquareEntry(At(g, i), At(x, i), At(u, i));
    }
    DotMap(g, t, d, u, n);
  }

  lemma QuotientDot(g: Vec, t: Vec, q: Vec, d: Vec, u: Vec, x: Vec, k: real, n: nat)
    requires forall i :: 0 <= i < n ==> At(q, i) == Quotient(At(g, i), At(x, i))
    requires forall i :: 0 <= i < n ==> At(d, i) == k * At(q, i)
    requires forall i :: 0 <= i < n ==> At(t, i) == Quotient(k * At(u, i), At(x, i))
    ensures Dot(g, t, n) == Dot(d, u, n)
  {
    forall i | 0 <= i < n ensures At(g, i) * At(t, i) == At(d, i) * At(u, i) {
      QuotientEntry(At(g, i), k, At(x, i), At(u, i));
    }
    DotMap(g, t, d, u, n);
  }

  lemma ProductEntry(a: real, f: real, t: real)
    ensures a * (f * t) == (a * f) * t == (f * a) * t
    ensures a * (-f * t) == -(a * f) * t
  {
  }

  lemma SquareEntry(a: real, x: real, t: real)
    ensures a * (2.0 * x * t) == 2.0 * (x * a) * t
  {
  }

  lemma QuotientEntry(a: real, k: real, z: real, t: real)
    ensures a * Quotient(k * t, z) == k * Quotient(a, z) * t
  {
    QuotientTimes(a, z, k * t);
    QuotientTimes(a, z, t);
    QuotientTimes(k, z, a * t);
    QuotientProduct(a, k, z, t);
  }

  lemma QuotientProduct(a: real, k: real, z: real, t: real)
    ensures Quotient(a * (k * t), z) == k * Quotient(a * t, z)
  {
    if z != 0.0 {
      assert a * (k * t) / z == k * (a * t / z);
    }
  }

  lemma QuotientTimes(a: real, b: real, c: real)
    ensures Quotient(a, b) * c == Quotient(a * c, b) == a * Quotient(c, b)
  {
    if b != 0.0 {
      assert a / b * c == a * c / b;
      assert a * (c / b) == a * c / b;
    }
  }

  // ---- values of the allocated tensors -------------------------------------------------------

  ghost predicate AtValues(v: Env, n: Id, x: Id, g: Id) {
    && EnvOk(v) && n < |v.p| && x < n && g < |v.pf|
    && v.pf[n] == v.p[n] && v.pf[x] == v.p[x] && v.p[x].ne == v.p[n].ne == v.pf[g].ne
  }

  // The tangent of n follows that of its elementwise operand x.
  ghost predicate Moves(v: Env, n: Id, x: Id)
    requires Sized(v.p, v.val) && Sized(v.p, v.tan) && n < |v.p| && x < |v.p|
  {
    forall i :: 0 <= i < v.p[n].ne ==>
      At(v.tan[n], i) == TangentAt(v.e, v.p[n].op, v.p[n].ne, v.val[n], v.val[x], v.val[x], v.tan[x], v.tan[x], i)
  }

  lemma ScaledValue(v: Env, z: Id, k: real, x: Id, ne: Count)
    requires EnvOk(v) && z < |v.pf| && v.pf[z] == Unary(Scale(k, 0.0), x, ne)
    requires x < z && v.pf[x].ne == ne
    ensures |v.val[z]| == ne && |v.val[x]| == ne
    ensures forall i :: 0 <= i < ne ==> At(v.val[z], i) == k * At(v.val[x], i)
  {
    UnaryValue(v, z, Scale(k, 0.0), x, ne);
  }

  lemma CosValue(v: Env, z: Id, x: Id, ne: Count)
    requires EnvOk(v) && z < |v.pf| && v.pf[z] == Unary(Cos, x, ne) && x < z && v.pf[x].ne == ne
    ensures |v.val[z]| == ne && |v.val[x]| == ne
    ensures forall i :: 0 <= i < ne ==> At(v.val[z], i) == v.e.cos(At(v.val[x], i))
  {
    UnaryValue(v, z, Cos, x, ne);
  }

  lemma SinValue(v: Env, z: Id, x: Id, ne: Count)
    requires EnvOk(v) && z < |v.pf| && v.pf[z] == Unary(Sin, x, ne) && x < z && v.pf[x].ne == ne
    ensures |v.val[z]| == ne && |v.val[x]| == ne
    ensures forall i :: 0 <= i < ne ==> At(v.val[z], i) == v.e.sin(At(v.val[x], i))
  {
    UnaryValue(v, z, Sin, x, ne);
  }

  lemma ScaleMoves(v: Env, n: Id, x: Id, g: Id, z: Id)
    requires AtValues(v, n, x, g) && v.p[n].op.Scale? && n < z && g < z
    requires z < |v.pf| && v.pf[z] == Unary(Scale(v.p[n].op.s, 0.0), g, v.p[n].ne)
    requires Moves(v, n, x)
    ensures z < |v.val|
    ensures Dot(v.val[g], v.tan[n], v.p[n].ne) == Dot(v.val[z], v.tan[x], v.p[n].ne)
  {
    ScaledValue(v, z, v.p[n].op.s, g, v.p[n].ne);
    ScaledDot(v.val[g], v.tan[n], v.val[z], v.tan[x], v.p[n].op.s, v.p[n].ne);
  }

  lemma LogMoves(v: Env, n: Id, x: Id, g: Id, z: Id)
    requires AtValues(v, n, x, g) && v.p[n].op == Log && n < z && g < z
    requires z < |v.pf| && v.pf[z] == Binary(Div, g, x, v.p[n].ne)
    requires Moves(v, n, x)
    ensures z < |v.val|
    ensures Dot(v.val[g], v.tan[n], v.p[n].ne) == Dot(v.val[z], v.tan[x], v.p[n].ne)
  {
    BinaryValue(v, z, Div, g, x, v.p[n].ne);
    QuotientDot(v.val[g], v.tan[n], v.val[z], v.val[z], v.tan[x], v.val[x], 1.0, v.p[n].ne);
  }

  lemma ExpMoves(v: Env, n: Id, x: Id, g: Id, z: Id)
    requires AtValues(v, n, x, g) && v.p[n].op == Exp && n < z && g < z
    requires z < |v.pf| && v.pf[z] == Binary(Mul, n, g, v.p[n].ne)
    requires Moves(v, n, x)
    ensures z < |v.val|
    ensures Dot(v.val[g], v.tan[n], v.p[n].ne) == Dot(v.val[z], v.tan[x], v.p[n].ne)
  {
    BinaryValue(v, z, Mul, n, g, v.p[n].ne);
    FactorDot(v.val[g], v.tan[n], v.val[z], v.tan[x], v.val[n], v.p[n].ne);
  }

  lemma SqrMoves(v: Env, n: Id, x: Id, g: Id, z: Id)
    requires AtValues(v, n, x, g) && v.p[n].op == Sqr && n < z && g < z
    requires z + 1 < |v.pf| && v.pf[z] == Binary(Mul, x, g, v.p[n].ne)
    requires v.pf[z + 1] == Unary(Scale(2.0, 0.0), z, v.p[n].ne)
    requires Moves(v, n, x)
    ensures z + 1 < |v.val|
    ensures Dot(v.val[g], v.tan[n], v.p[n].ne) == Dot(v.val[z + 1], v.tan[x], v.p[n].ne)
  {
    BinaryValue(v, z, Mul, x, g, v.p[n].ne);
    ScaledValue(v, z + 1, 2.0, z, v.p[n].ne);
    SquareDot(v.val[g], v.tan[n], v.val[z], v.val[z + 1], v.tan[x], v.val[x], v.p[n].ne);
  }

  lemma SqrtMoves(v: Env, n: Id, x: Id, g: Id, z: Id)
    requires AtValues(v, n, x, g) && v.p[n].op == Sqrt && n < z && g < z
    requires z + 1 < |v.pf| && v.pf[z] == Binary(Div, g, n, v.p[n].ne)
    requires v.pf[z + 1] == Unary(Scale(0.5, 0.0), z, v.p[n].ne)
    requires Moves(v, n, x)
    ensures z + 1 < |v.val|
    ensures Dot(v.val[g], v.tan[n], v.p[n].ne) == Dot(v.val[z + 1], v.tan[x], v.p[n].ne)
  {
    BinaryValue(v, z, Div, g, n, v.p[n].ne);
    ScaledValue(v, z + 1, 0.5, z, v.p[n].ne);
    QuotientDot(v.val[g], v.tan[n], v.val[z], v.val[z + 1], v.tan[x], v.val[n], 0.5, v.p[n].ne);
  }

  lemma SinMoves(v: Env, n: Id, x: Id, g: Id, z: Id)
    requires AtValues(v, n, x, g) && v.p[n].op == Sin && n < z && g < z
    requires z + 1 < |v.pf| && v.pf[z] == Unary(Cos, x, v.p[n].ne)
    requires v.pf[z + 1] == Binary(Mul, g, z, v.p[n].ne)
    requires Moves(v, n, x)
    ensures z + 1 < |v.val|
    ensures Dot(v.val[g], v.tan[n], v.p[n].ne) == Dot(v.val[z + 1], v.tan[x], v.p[n].ne)
  {
    CosValue(v, z, x, v.p[n].ne);
    BinaryValue(v, z + 1, Mul, g, z, v.p[n].ne);
    SinDot(v.e, v.val[g], v.tan[n], v.val[z], v.val[z + 1], v.tan[x], v.val[x], v.p[n].ne);
  }

  lemma CosMoves(v: Env, n: Id, x: Id, g: Id, z: Id)
    requires AtValues(v, n, x, g) && v.p[n].op == Cos && n < z && g < z
    requires z + 1 < |v.pf| && v.pf[z] == Unary(Sin, x, v.p[n].ne)
    requires v.pf[z + 1] == Binary(Mul, g, z, v.p[n].ne)
    requires Moves(v, n, x)
    ensures z + 1 < |v.val|
    ensures Dot(v.val[g], v.tan[n], v.p[n].ne) == Dot(Negated(v.val[z + 1]), v.tan[x], v.p[n].ne)
  {
    SinValue(v, z, x, v.p[n].ne);
    BinaryValue(v, z + 1, Mul, g, z, v.p[n].ne);
    CosDot(v.e, v.val[g], v.tan[n], v.val[z], v.val[z + 1], v.tan[x], v.val[x], v.p[n].ne);
  }

  lemma DupMoves(v: Env, n: Id, x: Id, g: Id)
    requires AtValues(v, n, x, g) && v.p[n].op == Dup && Moves(v, n, x)
    ensures Dot(v.val[g], v.tan[n], v.p[n].ne) == Dot(v.val[g], v.tan[x], v.p[n].ne)
  {
    CopyDot(v.val[g], v.tan[n], v.tan[x], v.p[n].ne);
  }

  lemma NegMoves(v: Env, n: Id, x: Id, g: Id)
    requires AtValues(v, n, x, g) && v.p[n].op == Neg && Moves(v, n, x)
    ensures Dot(v.val[g], v.tan[n], v.p[n].ne) == Dot(Negated(v.val[g]), v.tan[x], v.p[n].ne)
  {
    NegatedDot(v.val[g], v.tan[n], v.tan[x], v.p[n].ne);
  }

  lemma ElementwiseMoves(v: Env, n: Id, x: Id, g: Id, z: Id)
    requires AtValues(v, n, x, g) && IsElementwise(v.p[n].op) && Moves(v, n, x) && n < z && g < z
    requires First(v.p[n]) == x && HasRule(v.p[n].op)
    requires Planned(v, FirstPlan(v.p[n], n, g, z, v.p[n].ne, v.p[n].ne), z)
    ensures var plan := FirstPlan(v.p[n], n, g, z, v.p[n].ne, v.p[n].ne);
      && Handed(z, plan, g) < |v.val|
      && Dot(v.val[g], v.tan[n], v.p[n].ne) == Dot(Delivered(v.val[Handed(z, plan, g)], plan.how, v.p[n].ne), v.tan[x], v.p[n].ne)
  {
    match v.p[n].op
    case Dup => DupMoves(v, n, x, g);
    case Neg => NegMoves(v, n, x, g);
    case Scale(_, _) => ScaleMoves(v, n, x, g, z);
    case Log => LogMoves(v, n, x, g, z);
    case Exp => ExpMoves(v, n, x, g, z);
    case Sqr => SqrMoves(v, n, x, g, z);
    case Sqrt => SqrtMoves(v, n, x, g, z);
    case Sin => SinMoves(v, n, x, g, z);
    case Cos => CosMoves(v, n, x, g, z);
  }
}
