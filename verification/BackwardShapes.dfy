// The operations with two operands, and those that change the number of entries.
module BackwardShapes {
  import opened Tensors
  import opened Values
  import opened Backward
  import opened BackwardFacts
  import opened BackwardOps

  // ---- splitting a tangent by operand --------------------------------------------------------

  // The part of a node's tangent that its first operand causes.
  function FirstPartAt(e: Elementary, t: Tensor, z: Vec, x: Vec, y: Vec, tx: Vec, i: nat): real
    requires |x| > 0 && |y| > 0
  {
    if t.op == Mul then At(y, i % |y|) * At(tx, i)
    else if t.op == Div then Quotient(1.0 * At(tx, i), At(y, i % |y|))
    else if IsBinary(t.op) || t.op == Add1 then At(tx, i)
    else TangentAt(e, t.op, t.ne, z, x, x, tx, tx, i)
  }

  // The part that its second operand causes.
  function SecondPartAt(t: Tensor, z: Vec, x: Vec, y: Vec, ty: Vec, i: nat): real
    requires |x| > 0 && |y| > 0
  {
    match t.op
    case Add => At(ty, i % |y|)
    case Add1 => At(ty, 0)
    case Sub => -At(ty, i % |y|)
    case Mul => At(x, i) * At(ty, i % |y|)
    case Div => Quotient(-(At(z, i) * At(ty, i % |y|)), At(y, i % |y|))
    case _ => 0.0
  }

  lemma QuotientSum(a: real, b: real, c: real)
    ensures Quotient(a - b, c) == Quotient(a, c) + Quotient(-b, c)
  {
    if c != 0.0 {
      assert (a - b) / c == a / c + (-b) / c;
    }
  }

  lemma TangentSplits(e: Elementary, t: Tensor, z: Vec, x: Vec, y: Vec, tx: Vec, ty: Vec, i: nat)
    requires |x| > 0 && |y| > 0 && (IsBinary(t.op) || t.op == Add1)
    ensures TangentAt(e, t.op, t.ne, z, x, y, tx, ty, i)
         == FirstPartAt(e, t, z, x, y, tx, i) + SecondPartAt(t, z, x, y, ty, i)
  {
    if t.op == Div {
      QuotientSum(At(tx, i), At(z, i) * At(ty, i % |y|), At(y, i % |y|));
    }
  }

  // ---- node and operand sizes, with the operands in place ---------------------------------------

  ghost predicate AtBinary(v: Env, n: Id, x: Id, y: Id, g: Id) {
    && EnvOk(v) && n < |v.p| && x < n && y < n && g < |v.pf|
    && v.pf[n] == v.p[n] && v.pf[x] == v.p[x] && v.pf[y] == v.p[y]
    && v.p[x].ne == v.p[n].ne == v.pf[g].ne && v.p[n].ne % v.p[y].ne == 0
    && First(v.p[n]) == x && Second(v.p[n]) == y
  }

  // part is the first (or second) part of the tangent of n.
  ghost predicate IsFirstPart(v: Env, n: Id, x: Id, y: Id, part: Vec)
    requires Sized(v.p, v.val) && Sized(v.p, v.tan) && n < |v.p| && x < |v.p| && y < |v.p|
  {
    forall i :: 0 <= i < v.p[n].ne ==> At(part, i) == FirstPartAt(v.e, v.p[n], v.val[n], v.val[x], v.val[y], v.tan[x], i)
  }

  ghost predicate IsSecondPart(v: Env, n: Id, x: Id, y: Id, part: Vec)
    requires Sized(v.p, v.val) && Sized(v.p, v.tan) && n < |v.p| && x < |v.p| && y < |v.p|
  {
    forall i :: 0 <= i < v.p[n].ne ==> At(part, i) == SecondPartAt(v.p[n], v.val[n], v.val[x], v.val[y], v.tan[y], i)
  }

  // ---- first operands --------------------------------------------------------------------------

  lemma TileAt(y: Vec, n: nat)
    requires |y| > 0
    ensures |Tile(y, n)| == n && forall i :: 0 <= i < n ==> At(Tile(y, n), i) == At(y, i % |y|)
  {
  }

  lemma MulFirst(v: Env, n: Id, x: Id, y: Id, g: Id, z: Id, part: Vec)
    requires AtBinary(v, n, x, y, g) && v.p[n].op == Mul && IsFirstPart(v, n, x, y, part)
    requires n < z < |v.pf| && g < z && v.pf[z] == Binary(Mul, g, y, v.p[n].ne)
    ensures z < |v.val| && Dot(v.val[g], part, v.p[n].ne) == Dot(v.val[z], v.tan[x], v.p[n].ne)
  {
    TiledValue(v, z, Mul, g, y, v.p[n].ne);
    TileAt(v.val[y], v.p[n].ne);
    FactorDot(v.val[g], part, v.val[z], v.tan[x], Tile(v.val[y], v.p[n].ne), v.p[n].ne);
  }

  lemma DivFirst(v: Env, n: Id, x: Id, y: Id, g: Id, z: Id, part: Vec)
    requires AtBinary(v, n, x, y, g) && v.p[n].op == Div && IsFirstPart(v, n, x, y, part)
    requires n < z < |v.pf| && g < z && v.pf[z] == Binary(Div, g, y, v.p[n].ne)
    ensures z < |v.val| && Dot(v.val[g], part, v.p[n].ne) == Dot(v.val[z], v.tan[x], v.p[n].ne)
  {
    TiledValue(v, z, Div, g, y, v.p[n].ne);
    TileAt(v.val[y], v.p[n].ne);
    QuotientDot(v.val[g], part, v.val[z], v.val[z], v.tan[x], Tile(v.val[y], v.p[n].ne), 1.0, v.p[n].ne);
  }

  lemma BinaryFirst(v: Env, n: Id, x: Id, y: Id, g: Id, z: Id, part: Vec)
    requires AtBinary(v, n, x, y, g) && (IsBinary(v.p[n].op) || v.p[n].op == Add1) && IsFirstPart(v, n, x, y, part)
    requires n < z && g < z && Planned(v, FirstPlan(v.p[n], n, g, z, v.p[n].ne, v.p[n].ne), z)
    ensures var plan := FirstPlan(v.p[n], n, g, z, v.p[n].ne, v.p[n].ne);
      && Handed(z, plan, g) < |v.val|
      && Dot(v.val[g], part, v.p[n].ne) == Dot(Delivered(v.val[Handed(z, plan, g)], plan.how, v.p[x].ne), v.tan[x], v.p[x].ne)
  {
    match v.p[n].op
    case Mul => MulFirst(v, n, x, y, g, z, part);
    case Div => DivFirst(v, n, x, y, g, z, part);
    case Add | Add1 | Sub => CopyDot(v.val[g], part, v.tan[x], v.p[n].ne);
  }

  // ---- second operands -------------------------------------------------------------------------

  lemma SameSizeTile(n: nat, m: nat, y: Vec)
    requires |y| == m && m > 0 && n == m
    ensures forall i :: 0 <= i < n ==> At(y, i % |y|) == At(y, i)
  {
  }

  // Folding the gradient serves an operand that was repeated.
  lemma FoldedDot(v: Env, q: Id, z: Id, y: Id, part: Vec, ne: Count)
    requires EnvOk(v) && q < z < |v.pf| && y < |v.p| && v.pf[y] == v.p[y]
    requires v.pf[z] == Unary(RepeatBack, q, v.p[y].ne) && v.pf[q].ne == ne && ne % v.p[y].ne == 0
    requires forall i :: 0 <= i < ne ==> At(part, i) == At(v.tan[y], i % |v.tan[y]|)
    ensures Dot(v.val[q], part, ne) == Dot(v.val[z], v.tan[y], v.p[y].ne)
  {
    UnaryValue(v, z, RepeatBack, q, v.p[y].ne);
    FoldAdjoint(v.val[q], part, v.val[z], v.tan[y], ne);
  }

  lemma AddSecond(v: Env, n: Id, x: Id, y: Id, g: Id, z: Id, part: Vec)
    requires AtBinary(v, n, x, y, g) && v.p[n].op == Add && IsSecondPart(v, n, x, y, part)
    requires n < z && g < z
    requires Planned(v, SecondPlan(v.p[n], n, g, z, v.p[n].ne, v.p[x].ne, v.p[y].ne), z)
    ensures var plan := SecondPlan(v.p[n], n, g, z, v.p[n].ne, v.p[x].ne, v.p[y].ne);
      && Handed(z, plan, g) < |v.val|
      && Dot(v.val[g], part, v.p[n].ne) == Dot(Delivered(v.val[Handed(z, plan, g)], plan.how, v.p[y].ne), v.tan[y], v.p[y].ne)
  {
    if v.p[x].ne == v.p[y].ne {
      SameSizeTile(v.p[n].ne, v.p[y].ne, v.tan[y]);
      CopyDot(v.val[g], part, v.tan[y], v.p[n].ne);
    } else {
      FoldedDot(v, g, z, y, part, v.p[n].ne);
    }
  }

  lemma SubSecond(v: Env, n: Id, x: Id, y: Id, g: Id, part: Vec)
    requires AtBinary(v, n, x, y, g) && v.p[n].op == Sub && IsSecondPart(v, n, x, y, part) && v.p[y].ne == v.p[n].ne
    ensures Dot(v.val[g], part, v.p[n].ne) == Dot(Negated(v.val[g]), v.tan[y], v.p[y].ne)
  {
    SameSizeTile(v.p[n].ne, v.p[y].ne, v.tan[y]);
    NegatedDot(v.val[g], part, v.tan[y], v.p[n].ne);
  }

  // The mean equals the sum for a single entry only.
  lemma Add1Second(v: Env, n: Id, x: Id, y: Id, g: Id, z: Id, part: Vec)
    requires AtBinary(v, n, x, y, g) && v.p[n].op == Add1 && IsSecondPart(v, n, x, y, part)
    requires v.p[y].ne == 1 && v.p[n].ne == 1
    requires n < z < |v.pf| && g < z && v.pf[z] == Unary(Mean, g, 1)
    ensures z < |v.val| && Dot(v.val[g], part, v.p[n].ne) == Dot(v.val[z], v.tan[y], 1)
  {
    UnaryValue(v, z, Mean, g, 1);
    MeanOfOne(v.val[g]);
    assert At(v.val[z], 0) == At(v.val[g], 0);
    DotOne(v.val[g], part);
    DotOne(v.val[z], v.tan[y]);
  }

  lemma MeanOfOne(u: Vec)
    requires |u| == 1
    ensures Total(u, |u|) / (|u| as real) == At(u, 0)
  {
    assert Total(u, 1) == Total(u, 0) + At(u, 0);
  }

  lemma DotOne(u: Vec, w: Vec)
    ensures Dot(u, w, 1) == At(u, 0) * At(w, 0)
  {
    assert Dot(u, w, 1) == Dot(u, w, 0) + At(u, 0) * At(w, 0);
  }

  lemma ProductDot(g: Vec, part: Vec, q: Vec, x: Vec, tiled: Vec, n: nat)
    requires forall i :: 0 <= i < n ==> At(q, i) == At(x, i) * At(g, i)
    requires forall i :: 0 <= i < n ==> At(part, i) == At(x, i) * At(tiled, i)
    ensures Dot(g, part, n) == Dot(q, tiled, n)
  {
    FactorDot(g, part, q, tiled, x, n);
  }

  ghost predicate MulProduct(v: Env, n: Id, x: Id, y: Id, g: Id, z: Id) {
    && AtBinary(v, n, x, y, g) && v.p[n].op == Mul && n < z < |v.pf| && g < z
    && v.pf[z] == Binary(Mul, x, g, v.p[n].ne)
  }

  lemma MulSecondProduct(v: Env, n: Id, x: Id, y: Id, g: Id, z: Id, part: Vec, tiled: Vec)
    requires MulProduct(v, n, x, y, g, z) && IsSecondPart(v, n, x, y, part) && tiled == Tile(v.tan[y], v.p[n].ne)
    ensures z < |v.val| && Dot(v.val[g], part, v.p[n].ne) == Dot(v.val[z], tiled, v.p[n].ne)
  {
    var ne := v.p[n].ne;
    TileAt(v.tan[y], ne);
    BinaryValue(v, z, Mul, x, g, ne);
    ProductDot(v.val[g], part, v.val[z], v.val[x], tiled, ne);
  }

  lemma MulSecondSame(v: Env, n: Id, x: Id, y: Id, g: Id, z: Id, part: Vec)
    requires MulProduct(v, n, x, y, g, z) && IsSecondPart(v, n, x, y, part) && v.p[y].ne == v.p[n].ne
    ensures z < |v.val| && Dot(v.val[g], part, v.p[n].ne) == Dot(v.val[z], v.tan[y], v.p[y].ne)
  {
    var ne := v.p[n].ne;
    var tiled := Tile(v.tan[y], ne);
    MulSecondProduct(v, n, x, y, g, z, part, tiled);
    TileAt(v.tan[y], ne);
    SameSizeTile(ne, ne, v.tan[y]);
    CopyDot(v.val[z], tiled, v.tan[y], ne);
  }

  lemma MulSecondFolded(v: Env, n: Id, x: Id, y: Id, g: Id, z: Id, part: Vec)
    requires MulProduct(v, n, x, y, g, z) && IsSecondPart(v, n, x, y, part)
    requires z + 1 < |v.pf| && v.pf[z + 1] == Unary(RepeatBack, z, v.p[y].ne)
    ensures z + 1 < |v.val| && Dot(v.val[g], part, v.p[n].ne) == Dot(v.val[z + 1], v.tan[y], v.p[y].ne)
  {
    var ne := v.p[n].ne;
    var tiled := Tile(v.tan[y], ne);
    MulSecondProduct(v, n, x, y, g, z, part, tiled);
    TileAt(v.tan[y], ne);
    FoldedDot(v, z, z + 1, y, tiled, ne);
  }

  lemma MulSecond(v: Env, n: Id, x: Id, y: Id, g: Id, z: Id, part: Vec)
    requires AtBinary(v, n, x, y, g) && v.p[n].op == Mul && IsSecondPart(v, n, x, y, part)
    requires n < z && g < z
    requires Planned(v, SecondPlan(v.p[n], n, g, z, v.p[n].ne, v.p[x].ne, v.p[y].ne), z)
    ensures var plan := SecondPlan(v.p[n], n, g, z, v.p[n].ne, v.p[x].ne, v.p[y].ne);
      && Handed(z, plan, g) < |v.val|
      && Dot(v.val[g], part, v.p[n].ne) == Dot(Delivered(v.val[Handed(z, plan, g)], plan.how, v.p[y].ne), v.tan[y], v.p[y].ne)
  {
    if v.p[x].ne == v.p[y].ne {
      MulSecondSame(v, n, x, y, g, z, part);
    } else {
      MulSecondFolded(v, n, x, y, g, z, part);
    }
  }

  lemma QuotientNegDot(g: Vec, part: Vec, q: Vec, r: Vec, w: Vec, y: Vec, u: Vec, n: nat)
    requires |r| >= n
    requires forall i :: 0 <= i < n ==> At(q, i) == Quotient(At(w, i), At(y, i))
    requires forall i :: 0 <= i < n ==> At(r, i) == At(g, i) * At(q, i)
    requires forall i :: 0 <= i < n ==> At(part, i) == Quotient(-(At(w, i) * At(u, i)), At(y, i))
    ensures Dot(g, part, n) == Dot(Negated(r), u, n)
  {
    forall i | 0 <= i < n ensures At(g, i) * At(part, i) == At(Negated(r), i) * At(u, i) {
      assert At(Negated(r), i) == -At(r, i);
      QuotientNegEntry(At(g, i), At(w, i), At(y, i), At(u, i));
    }
    DotMap(g, part, Negated(r), u, n);
  }

  lemma QuotientNegEntry(a: real, w: real, y: real, u: real)
    ensures a * Quotient(-(w * u), y) == -(a * Quotient(w, y)) * u
  {
    QuotientTimes(w, y, u);
    QuotientTimes(w * u, y, -1.0);
    ProductEntry(a, Quotient(w, y), u);
  }

  lemma DivSecond(v: Env, n: Id, x: Id, y: Id, g: Id, z: Id, part: Vec)
    requires AtBinary(v, n, x, y, g) && v.p[n].op == Div && IsSecondPart(v, n, x, y, part) && v.p[y].ne == v.p[n].ne
    requires n < z && g < z && z + 1 < |v.pf|
    requires v.pf[z] == Binary(Div, n, y, v.p[n].ne) && v.pf[z + 1] == Binary(Mul, g, z, v.p[n].ne)
    ensures z + 1 < |v.val| && Dot(v.val[g], part, v.p[n].ne) == Dot(Negated(v.val[z + 1]), v.tan[y], v.p[y].ne)
  {
    var ne := v.p[n].ne;
    BinaryValue(v, z, Div, n, y, ne);
    BinaryValue(v, z + 1, Mul, g, z, ne);
    SameSizeTile(ne, ne, v.tan[y]);
    SameSizeTile(ne, ne, v.val[y]);
    QuotientNegDot(v.val[g], part, v.val[z], v.val[z + 1], v.val[n], v.val[y], v.tan[y], ne);
  }

  // The gradient code asserts equal shapes here (subtraction, division), and takes a mean
  // where a sum is due (scalar addition).
  predicate SecondServed(t: Tensor, ny: Count) {
    && (t.op == Sub || t.op == Div ==> ny == t.ne)
    && (t.op == Add1 ==> ny == 1 && t.ne == 1)
  }

  lemma BinarySecond(v: Env, n: Id, x: Id, y: Id, g: Id, z: Id, part: Vec)
    requires AtBinary(v, n, x, y, g) && (IsBinary(v.p[n].op) || v.p[n].op == Add1) && IsSecondPart(v, n, x, y, part)
    requires SecondServed(v.p[n], v.p[y].ne) && n < z && g < z
    requires Planned(v, SecondPlan(v.p[n], n, g, z, v.p[n].ne, v.p[x].ne, v.p[y].ne), z)
    ensures var plan := SecondPlan(v.p[n], n, g, z, v.p[n].ne, v.p[x].ne, v.p[y].ne);
      && Handed(z, plan, g) < |v.val|
      && Dot(v.val[g], part, v.p[n].ne) == Dot(Delivered(v.val[Handed(z, plan, g)], plan.how, v.p[y].ne), v.tan[y], v.p[y].ne)
  {
    match v.p[n].op
    case Add => AddSecond(v, n, x, y, g, z, part);
    case Add1 => Add1Second(v, n, x, y, g, z, part);
    case Sub => SubSecond(v, n, x, y, g, part);
    case Mul => MulSecond(v, n, x, y, g, z, part);
    case Div => DivSecond(v, n, x, y, g, z, part);
  }

  // ---- one operand, different sizes ---------------------------------------------------------------

  predicate IsShaping(op: Op) {
    op == Sum || op == Mean || op == Repeat || op == RepeatBack
  }

  ghost predicate AtShaping(v: Env, n: Id, x: Id, g: Id) {
    && EnvOk(v) && n < |v.p| && x < n && g < |v.pf|
    && v.pf[n] == v.p[n] && v.pf[x] == v.p[x] && v.p[n].ne == v.pf[g].ne
    && Shaped(v.p, n) && First(v.p[n]) == x
  }

  lemma SumMoves(v: Env, n: Id, x: Id, g: Id)
    requires AtShaping(v, n, x, g) && v.p[n].op == Sum && Moves(v, n, x)
    ensures Dot(v.val[g], v.tan[n], 1) == Dot(Constant(At(v.val[g], 0), v.p[x].ne), v.tan[x], v.p[x].ne)
  {
    DotOne(v.val[g], v.tan[n]);
    DotConstant(Constant(At(v.val[g], 0), v.p[x].ne), v.tan[x], At(v.val[g], 0), v.p[x].ne);
  }

  lemma MeanMoves(v: Env, n: Id, x: Id, g: Id, z: Id)
    requires AtShaping(v, n, x, g) && v.p[n].op == Mean && Moves(v, n, x)
    requires n < z < |v.pf| && g < z && v.pf[z] == Unary(Scale(1.0 / (v.p[x].ne as real), 0.0), g, 1)
    ensures z < |v.val| && Dot(v.val[g], v.tan[n], 1) == Dot(Constant(At(v.val[z], 0), v.p[x].ne), v.tan[x], v.p[x].ne)
  {
    var m := v.p[x].ne as real;
    ScaledValue(v, z, 1.0 / m, g, 1);
    DotOne(v.val[g], v.tan[n]);
    DotConstant(Constant(At(v.val[z], 0), v.p[x].ne), v.tan[x], At(v.val[z], 0), v.p[x].ne);
    assert At(v.tan[n], 0) == Total(v.tan[x], v.p[x].ne) / m;
    Averaged(At(v.val[g], 0), Total(v.tan[x], v.p[x].ne), m);
  }

  lemma Averaged(a: real, t: real, m: real)
    requires m != 0.0
    ensures a * (t / m) == 1.0 / m * a * t
  {
    assert t / m == 1.0 / m * t;
  }

  lemma RepeatMoves(v: Env, n: Id, x: Id, g: Id, z: Id)
    requires AtShaping(v, n, x, g) && v.p[n].op == Repeat && Moves(v, n, x)
    requires n < z < |v.pf| && g < z && v.pf[z] == Unary(RepeatBack, g, v.p[x].ne)
    ensures z < |v.val| && Dot(v.val[g], v.tan[n], v.p[n].ne) == Dot(v.val[z], v.tan[x], v.p[x].ne)
  {
    FoldedDot(v, g, z, x, v.tan[n], v.p[n].ne);
  }

  lemma RepeatBackMoves(v: Env, n: Id, x: Id, g: Id, z: Id)
    requires AtShaping(v, n, x, g) && v.p[n].op == RepeatBack && Moves(v, n, x)
    requires n < z < |v.pf| && g < z && v.pf[z] == Unary(Repeat, g, v.p[x].ne)
    ensures z < |v.val| && Dot(v.val[g], v.tan[n], v.p[n].ne) == Dot(v.val[z], v.tan[x], v.p[x].ne)
  {
    UnaryValue(v, z, Repeat, g, v.p[x].ne);
    FoldAdjoint(v.tan[x], v.val[z], v.tan[n], v.val[g], v.p[x].ne);
    DotSymmetric(v.tan[x], v.val[z], v.p[x].ne);
    DotSymmetric(v.tan[n], v.val[g], v.p[n].ne);
  }

  lemma ShapingMoves(v: Env, n: Id, x: Id, g: Id, z: Id)
    requires AtShaping(v, n, x, g) && IsShaping(v.p[n].op) && Moves(v, n, x) && n < z && g < z
    requires Planned(v, FirstPlan(v.p[n], n, g, z, v.p[n].ne, v.p[x].ne), z)
    ensures var plan := FirstPlan(v.p[n], n, g, z, v.p[n].ne, v.p[x].ne);
      && Handed(z, plan, g) < |v.val|
      && Dot(v.val[g], v.tan[n], v.p[n].ne) == Dot(Delivered(v.val[Handed(z, plan, g)], plan.how, v.p[x].ne), v.tan[x], v.p[x].ne)
  {
    match v.p[n].op
    case Sum => SumMoves(v, n, x, g);
    case Mean => MeanMoves(v, n, x, g, z);
    case Repeat => RepeatMoves(v, n, x, g, z);
    case RepeatBack => RepeatBackMoves(v, n, x, g, z);
  }

  // ---- operands that do not move ------------------------------------------------------------------

  lemma FirstPartZero(e: Elementary, t: Tensor, z: Vec, x: Vec, y: Vec, tx: Vec, i: nat)
    requires |x| > 0 && |y| > 0 && HasRule(t.op)
    requires forall j :: At(tx, j) == 0.0
    ensures FirstPartAt(e, t, z, x, y, tx, i) == 0.0
  {
    if t.op == Sum || t.op == Mean || t.op == RepeatBack { FoldZero(tx, t.ne, i, |x|); }
  }

  lemma SecondPartZero(t: Tensor, z: Vec, x: Vec, y: Vec, ty: Vec, i: nat)
    requires |x| > 0 && |y| > 0
    requires forall j :: At(ty, j) == 0.0
    ensures SecondPartAt(t, z, x, y, ty, i) == 0.0
  {
  }

  // ---- ADD1 ----------------------------------------------------------------------------------------

  lemma TiledScalarDot(g: Vec, part: Vec, ty: Vec, ne: nat)
    requires forall i :: 0 <= i < ne ==> At(part, i) == At(ty, 0)
    ensures Dot(g, part, ne) == Total(g, ne) * At(ty, 0)
  {
    DotConstant(part, g, At(ty, 0), ne);
    DotSymmetric(g, part, ne);
  }

  lemma MeanTimes(total: real, t: real, n: int)
    requires n > 0
    ensures total * t == total / (n as real) * t <==> n == 1 || total == 0.0 || t == 0.0
  {
    var m := total / (n as real);
    assert total == m * (n as real);
    var k := (n - 1) as real;
    assert total * t - m * t == m * k * t;
    if n != 1 && total != 0.0 && t != 0.0 {
      assert m != 0.0;
      assert m * k != 0.0;
      assert m * k * t != 0.0;
    }
    if n != 1 && total == 0.0 { assert m == 0.0; }
  }

  // What the source hands to the scalar operand of an ADD1 node, the mean of the node's gradient,
  // pairs with that operand's tangent as it should exactly when the node has one entry, its
  // gradient sums to zero or the operand rests.
  lemma Add1CarriesExactly(v: Env, n: Id, x: Id, y: Id, g: Id, z: Id, part: Vec)
    requires AtBinary(v, n, x, y, g) && v.p[n].op == Add1 && v.p[y].ne == 1 && IsSecondPart(v, n, x, y, part)
    requires n < z && g < z && Planned(v, SecondPlan(v.p[n], n, g, z, v.p[n].ne, v.p[x].ne, 1), z)
    ensures var plan := SecondPlan(v.p[n], n, g, z, v.p[n].ne, v.p[x].ne, 1); Handed(z, plan, g) < |v.val| && (Dot(v.val[g], part, v.p[n].ne) == Dot(Delivered(v.val[Handed(z, plan, g)], plan.how, 1), v.tan[y], 1) <==> v.p[n].ne == 1 || Total(v.val[g], v.p[n].ne) == 0.0 || At(v.tan[y], 0) == 0.0)
  {
    var ne := v.p[n].ne;
    UnaryValue(v, z, Mean, g, 1);
    TiledScalarDot(v.val[g], part, v.tan[y], ne);
    DotOne(v.val[z], v.tan[y]);
    MeanTimes(Total(v.val[g], ne), At(v.tan[y], 0), ne);
  }
}
