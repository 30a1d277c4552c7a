// The gradients that the reverse loop builds are the partial derivatives of the loss.
module PartialDerivatives {
  import opened Tensors
  import opened Values
  import opened Calculus
  import opened Derivatives
  import opened GraphBuild
  import opened GraphFacts
  import opened GraphRuns
  import opened Backward
  import opened GradientTheorem

  // ---- the tangents of a unit move ---------------------------------------------------------------

  function UnitVec(n: Count, here: bool, j: nat): Vec {
    seq(n, (i: nat) => if here && i == j then 1.0 else 0.0)
  }

  function OperationTangent(e: Elementary, t: Tensor, z: Vec, x: Vec, y: Vec, tx: Vec, ty: Vec): Vec
    requires |x| > 0 && |y| > 0
  {
    seq(t.ne, (i: nat) => TangentAt(e, t.op, t.ne, z, x, y, tx, ty, i))
  }

  lemma OperandsBefore(p: Pool, n: Id)
    requires n < |p| && Shaped(p, n) && p[n].op != NoOp
    ensures First(p[n]) < n && Second(p[n]) < n
    ensures IsSource(p, n, First(p[n])) && IsSource(p, n, Second(p[n]))
  {
    var t := p[n];
    assert t.src[0] in t.src;
    if |t.src| > 1 { assert t.src[1] in t.src; }
  }

  // The tangents of the first n tensors when entry j of tensor q moves at unit speed.
  ghost function Tangents(e: Elementary, p: Pool, val: seq<Vec>, q: Id, j: nat, n: nat): (tan: seq<Vec>)
    requires n <= |p| && Sized(p, val)
    ensures |tan| == n && forall m :: 0 <= m < n ==> |tan[m]| == p[m].ne
  {
    if n == 0 then [] else
      var prev := Tangents(e, p, val, q, j, n - 1);
      prev + [NextTangent(e, p, val, q, j, n - 1, prev)]
  }

  ghost function NextTangent(e: Elementary, p: Pool, val: seq<Vec>, q: Id, j: nat, n: Id, prev: seq<Vec>): (v: Vec)
    requires n < |p| && Sized(p, val) && |prev| == n
    ensures |v| == p[n].ne
  {
    if p[n].op != NoOp && Shaped(p, n) then
      OperandsBefore(p, n);
      var x, y := First(p[n]), Second(p[n]);
      OperationTangent(e, p[n], val[n], val[x], val[y], prev[x], prev[y])
    else UnitVec(p[n].ne, n == q, j)
  }

  lemma {:induction false} TangentsPrefix(e: Elementary, p: Pool, val: seq<Vec>, q: Id, j: nat, m: nat, n: nat)
    requires m < n <= |p| && Sized(p, val)
    ensures Tangents(e, p, val, q, j, m) <= Tangents(e, p, val, q, j, n)
    ensures Tangents(e, p, val, q, j, n)[m] == NextTangent(e, p, val, q, j, m, Tangents(e, p, val, q, j, m))
  {
    hide NextTangent, Sized;
    if m < n - 1 { TangentsPrefix(e, p, val, q, j, m, n - 1); }
  }

  lemma TangentsComputed(e: Elementary, p: Pool, val: seq<Vec>, q: Id, j: nat, n: Id)
    requires n < |p| && Sized(p, val)
    ensures Sized(p, Tangents(e, p, val, q, j, |p|))
    ensures TangentComputed(e, p, val, Tangents(e, p, val, q, j, |p|), n)
  {
    TangentsPrefix(e, p, val, q, j, n, |p|);
    if p[n].op != NoOp && Shaped(p, n) { OperandsBefore(p, n); }
  }

  lemma InputTangent(e: Elementary, p: Pool, val: seq<Vec>, q: Id, j: nat, n: Id, i: nat)
    requires n < |p| && Sized(p, val) && p[n].op == NoOp
    ensures EntryAt(Tangents(e, p, val, q, j, |p|), n, i) == if n == q && i == j && i < p[n].ne then 1.0 else 0.0
  {
    TangentsPrefix(e, p, val, q, j, n, |p|);
  }

  // ---- a family of evaluations -----------------------------------------------------------------------

  ghost predicate Visited(s: State, n: Id) {
    n in s.nodes || n in s.leafs
  }

  // val agrees with every node, and its inputs are those of rest except that entry j of
  // tensor q is displaced by h.
  ghost predicate Member(e: Elementary, p: Pool, s: State, rest: seq<Vec>, val: seq<Vec>, q: Id, j: nat, h: real) {
    && Sized(p, rest) && Sized(p, val)
    && (forall n: Id :: n in s.nodes && n < |p| ==> Computed(e, p, val, n))
    && (forall n: Id, i: nat :: Visited(s, n) && n < |p| && p[n].op == NoOp && i < p[n].ne ==>
          EntryAt(val, n, i) == EntryAt(rest, n, i) + if n == q && i == j then h else 0.0)
  }

  ghost predicate Moving(e: Elementary, p: Pool, s: State, w: Family, q: Id, j: nat) {
    && (forall h :: Member(e, p, s, w(0.0), w(h), q, j, h))
    && (forall n: Id :: n in s.nodes && n < |p| ==> SmoothNode(p, w(0.0), n))
  }

  lemma InputFollows(e: Elementary, p: Pool, s: State, w: Family, q: Id, j: nat, n: Id, tan: seq<Vec>)
    requires Moving(e, p, s, w, q, j) && Visited(s, n) && n < |p| && p[n].op == NoOp
    requires Sized(p, w(0.0)) && tan == Tangents(e, p, w(0.0), q, j, |p|)
    ensures Follows(w, tan, n)
  {
    forall i: nat ensures Derivative(Entry(w, n, i), EntryAt(tan, n, i)) {
      var f := Entry(w, n, i);
      InputTangent(e, p, w(0.0), q, j, n, i);
      forall h ensures f(h) == f(0.0) + if n == q && i == j && i < p[n].ne then h else 0.0 {
        assert Member(e, p, s, w(0.0), w(h), q, j, h);
        assert Member(e, p, s, w(0.0), w(0.0), q, j, 0.0);
      }
      if n == q && i == j && i < p[n].ne { ShiftRule(f, f(0.0)); } else { ConstantRule(f); }
    }
  }

  lemma OperationFollows(e: Elementary, p: Pool, s: State, w: Family, q: Id, j: nat, n: Id, tan: seq<Vec>)
    requires Lawful(e) && Moving(e, p, s, w, q, j) && n in s.nodes && n < |p| && p[n].op != NoOp && Shaped(p, n)
    requires Sized(p, w(0.0)) && tan == Tangents(e, p, w(0.0), q, j, |p|)
    requires Follows(w, tan, First(p[n])) && Follows(w, tan, Second(p[n]))
    ensures Follows(w, tan, n)
  {
    TangentsComputed(e, p, w(0.0), q, j, n);
    forall h ensures Sized(p, w(h)) && Computed(e, p, w(h), n) {
      assert Member(e, p, s, w(0.0), w(h), q, j, h);
    }
    NodeFollows(e, p, w, tan, n);
  }

  lemma OperandVisited(p: Pool, s: State, n: Id, x: Id)
    requires GraphInv(p, s) && n in s.nodes && n < |p| && IsSource(p, n, x)
    ensures Visited(s, x)
  {
    var i :| 0 <= i < |s.nodes| && s.nodes[i] == n;
  }

  lemma {:induction false} VisitedFollows(e: Elementary, p: Pool, s: State, w: Family, q: Id, j: nat, n: Id, tan: seq<Vec>)
    requires Lawful(e) && GraphInv(p, s) && AllShaped(p, s.nodes) && Moving(e, p, s, w, q, j)
    requires Sized(p, w(0.0)) && tan == Tangents(e, p, w(0.0), q, j, |p|) && Visited(s, n)
    ensures Follows(w, tan, n)
    decreases n
  {
    assert n < |p|;
    if p[n].op == NoOp {
      InputFollows(e, p, s, w, q, j, n, tan);
    } else {
      var i :| 0 <= i < |s.nodes| && s.nodes[i] == n;
      OperandsBefore(p, n);
      OperandVisited(p, s, n, First(p[n]));
      OperandVisited(p, s, n, Second(p[n]));
      VisitedFollows(e, p, s, w, q, j, First(p[n]), tan);
      VisitedFollows(e, p, s, w, q, j, Second(p[n]), tan);
      OperationFollows(e, p, s, w, q, j, n, tan);
    }
  }

  // ---- the loss -------------------------------------------------------------------------------------------

  function LossOf(p: Pool, nodes: seq<Id>, w: Family, k: nat): real -> real
    requires k <= |nodes|
  {
    (h: real) => LossSum(p, nodes, w(h), k)
  }

  lemma LossStep(p: Pool, nodes: seq<Id>, val: seq<Vec>, k: nat)
    requires k <= |nodes| && InPool(p, nodes)
    ensures LossSum(p, nodes, val, 0) == 0.0
    ensures k > 0 ==> LossSum(p, nodes, val, k) == LossSum(p, nodes, val, k - 1) + if p[nodes[k - 1]].loss then EntryAt(val, nodes[k - 1], 0) else 0.0
  {
  }

  lemma {:induction false} LossFollows(p: Pool, nodes: seq<Id>, w: Family, tan: seq<Vec>, k: nat)
    requires k <= |nodes| && InPool(p, nodes) && |p| <= |tan|
    requires forall i :: 0 <= i < |nodes| ==> Follows(w, tan, nodes[i])
    ensures Derivative(LossOf(p, nodes, w, k), LossSum(p, nodes, tan, k))
  {
    var s := LossOf(p, nodes, w, k);
    if k == 0 {
      forall h ensures s(h) == s(0.0) { LossStep(p, nodes, w(h), 0); LossStep(p, nodes, w(0.0), 0); }
      ConstantRule(s);
    } else {
      LossFollows(p, nodes, w, tan, k - 1);
      var f, d := LossOf(p, nodes, w, k - 1), LossSum(p, nodes, tan, k - 1);
      var n := nodes[k - 1];
      assert Derivative(Entry(w, n, 0), EntryAt(tan, n, 0));
      forall h ensures s(h) == f(h) + if p[n].loss then Entry(w, n, 0)(h) else 0.0 { LossStep(p, nodes, w(h), k); }
      LossStep(p, nodes, tan, k);
      if p[n].loss { SumRule(f, Entry(w, n, 0), s, d, EntryAt(tan, n, 0)); } else { SameDerivative(f, s, d); }
    }
  }

  // Only the moved entry is left of the sum over the parameters.
  lemma {:induction false} UnitParameters(p: Pool, nodes: seq<Id>, grads: map<Id, Id>, val: seq<Vec>, tan: seq<Vec>, q: Id, j: nat, k: nat)
    requires k <= |nodes| && InPool(p, nodes) && NoDup(nodes) && q < |p| && p[q].param && j < p[q].ne && |p| <= |tan|
    requires forall m, i: nat :: 0 <= m < |nodes| && p[nodes[m]].param ==> EntryAt(tan, nodes[m], i) == if nodes[m] == q && i == j then 1.0 else 0.0
    ensures ParameterTangent(p, nodes, grads, val, tan, k)
         == if q in nodes[..k] && q in grads && grads[q] < |val| then At(val[grads[q]], j) else 0.0
  {
    if k > 0 {
      UnitParameters(p, nodes, grads, val, tan, q, j, k - 1);
      var n := nodes[k - 1];
      assert nodes[..k] == nodes[..k - 1] + [n];
      if p[n].param { UnitDot(p, grads, val, tan, q, j, n); }
    }
  }

  lemma UnitDot(p: Pool, grads: map<Id, Id>, val: seq<Vec>, tan: seq<Vec>, q: Id, j: nat, n: Id)
    requires n < |p| && p[n].param && q < |p| && j < p[q].ne && |p| <= |tan|
    requires forall i: nat :: EntryAt(tan, n, i) == if n == q && i == j then 1.0 else 0.0
    ensures GradientDot(p, grads, val, tan, n) == if n == q && n in grads && grads[n] < |val| then At(val[grads[n]], j) else 0.0
  {
    if n in grads && grads[n] < |val| {
      forall i | 0 <= i < p[n].ne ensures At(tan[n], i) == if n == q && i == j then 1.0 else 0.0 {
        assert EntryAt(tan, n, i) == At(tan[n], i);
      }
      if n == q { DotUnit(val[grads[n]], tan[n], p[n].ne, j); } else { DotZero(val[grads[n]], tan[n], p[n].ne); }
    }
  }

  // ---- the theorem ---------------------------------------------------------------------------------------

  // val evaluates the gradient graph with every loss seeded by one.
  ghost predicate GradientValues(e: Elementary, b: Tape, val: seq<Vec>) {
    && Evaluates(e, b.p, val)
    && (forall l :: l in b.accs ==> b.accs[l] < |val| && val[b.accs[l]] == [1.0])
  }

  lemma TangentsEvaluated(e: Elementary, p: Pool, s: State, b: Tape, val: seq<Vec>, q: Id, j: nat)
    requires Differentiable(p, s) && p <= b.p && GradientValues(e, b, val) && Sized(p, val) && q < |p| && p[q].param
    ensures Evaluated(e, p, s, b, val, Tangents(e, p, val, q, j, |p|))
  {
    var tan := Tangents(e, p, val, q, j, |p|);
    forall k | 0 <= k < |s.nodes| && s.nodes[k] < |p| ensures TangentComputed(e, p, val, tan, s.nodes[k]) {
      TangentsComputed(e, p, val, q, j, s.nodes[k]);
    }
    forall x | x in s.leafs && x < |tan| ensures forall i :: At(tan[x], i) == 0.0 {
      forall i ensures At(tan[x], i) == 0.0 {
        if 0 <= i { InputTangent(e, p, val, q, j, x, i); }
      }
    }
  }

  lemma UnitInputs(e: Elementary, p: Pool, s: State, val: seq<Vec>, q: Id, j: nat, tan: seq<Vec>)
    requires Differentiable(p, s) && InPool(p, s.nodes) && Sized(p, val) && q < |p| && j < p[q].ne && tan == Tangents(e, p, val, q, j, |p|)
    ensures forall m, i: nat :: 0 <= m < |s.nodes| && p[s.nodes[m]].param ==> EntryAt(tan, s.nodes[m], i) == if s.nodes[m] == q && i == j then 1.0 else 0.0
  {
    forall m, i: nat | 0 <= m < |s.nodes| && p[s.nodes[m]].param
      ensures EntryAt(tan, s.nodes[m], i) == if s.nodes[m] == q && i == j then 1.0 else 0.0
    {
      assert NodeOk(p, s.nodes, s.nodes[m]);
      InputTangent(e, p, val, q, j, s.nodes[m], i);
    }
  }

  // For every differentiable graph, every parameter entry and every family of evaluations in
  // which just that entry moves: the entry of the parameter's gradient is the partial derivative
  // of the loss, and a parameter left without a gradient does not move the loss.
  lemma GradientIsDerivative(o: Order, e: Elementary, p: Pool, s: State, val: seq<Vec>, w: Family, q: Id, j: nat)
    requires Lawful(e) && Differentiable(p, s) && q in s.nodes && q < |p| && p[q].param && j < p[q].ne
    requires GradientValues(e, BuildBackward(o, p, s), val) && Moving(e, p, s, w, q, j) && w(0.0) == val
    ensures var grads := BuildBackward(o, p, s).grads; Derivative(LossOf(p, s.nodes, w, |s.nodes|), if q in grads && grads[q] < |val| then At(val[grads[q]], j) else 0.0)
  {
    var b := BuildBackward(o, p, s);
    assert Member(e, p, s, w(0.0), w(0.0), q, j, 0.0);
    var tan := Tangents(e, p, val, q, j, |p|);
    forall i | 0 <= i < |s.nodes| ensures Follows(w, tan, s.nodes[i]) {
      assert s.nodes[i] in s.nodes;
      VisitedFollows(e, p, s, w, q, j, s.nodes[i], tan);
    }
    LossFollows(p, s.nodes, w, tan, |s.nodes|);
    TangentsEvaluated(e, p, s, b, val, q, j);
    GradientIsExact(o, e, p, s, val, tan);
    UnitInputs(e, p, s, val, q, j, tan);
    UnitParameters(p, s.nodes, b.grads, val, tan, q, j, |s.nodes|);
    assert s.nodes[..|s.nodes|] == s.nodes;
  }
}
