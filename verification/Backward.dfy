// The gradient graph (tools/ref/ggml.c, ggml_build_backward_expand and ggml_compute_backward),
// as functions on the pool, the graph state and the gradient table.
module Backward {
  import opened Options
  import opened Tensors
  import opened Values
  import opened GraphBuild
  import opened GraphRuns

  // grads and accs are indexed by tensor where the source uses the tensor's hash position.
  datatype Tape = Tape(p: Pool, s: State, grads: map<Id, Id>, accs: map<Id, Id>)

  ghost predicate TapeOk(b: Tape) {
    && WellFormed(b.p)
    && (forall n :: n in b.grads ==> n < |b.p| && b.grads[n] < |b.p|)
  }

  // A step of the construction only allocates.
  ghost predicate Extends(b: Tape, c: Tape) {
    TapeOk(c) && b.p <= c.p && c.accs == b.accs
  }

  lemma ExtendsTrans(b: Tape, c: Tape, d: Tape)
    requires Extends(b, c) && Extends(c, d)
    ensures Extends(b, d)
  {
  }

  function Unary(op: Op, x: Id, ne: Count): Tensor {
    Tensor(op, [Some(x)], ne)
  }

  function Binary(op: Op, x: Id, y: Id, ne: Count): Tensor {
    Tensor(op, [Some(x), Some(y)], ne)
  }

  // An operation with one or two operands among the first limit tensors.
  predicate Names(t: Tensor, limit: nat) {
    && t.op != NoOp && 1 <= |t.src| <= 2
    && t.src[0].Some? && t.src[0].value < limit
    && (|t.src| == 2 ==> t.src[1].Some? && t.src[1].value < limit)
  }

  function Emit(b: Tape, t: Tensor): Tape {
    b.(p := b.p + [t])
  }

  lemma EmitOk(b: Tape, t: Tensor)
    requires TapeOk(b) && Names(t, |b.p|)
    ensures Extends(b, Emit(b, t))
  {
  }

  // Set the gradient of x to g and expand the graph by it.
  ghost function Assign(o: Order, b: Tape, x: Id, g: Id): (c: Tape)
    requires TapeOk(b) && x < |b.p| && g < |b.p|
    ensures Extends(b, c) && c.p == b.p
    ensures c.grads == b.grads[x := g]
  {
    b.(grads := b.grads[x := g], s := Visit(b.p, o, b.s, g, true))
  }

  // Combine the gradient of x with g by op when there is one, else start it by first.
  ghost function Combine(o: Order, b: Tape, x: Id, g: Id, op: Op): (c: Tape)
    requires TapeOk(b) && x in b.grads && g < |b.p| && op != NoOp
    ensures Extends(b, c)
  {
    EmitOk(b, Binary(op, b.grads[x], g, b.p[b.grads[x]].ne));
    Assign(o, Emit(b, Binary(op, b.grads[x], g, b.p[b.grads[x]].ne)), x, |b.p|)
  }

  ghost function AddOrSet(o: Order, b: Tape, x: Id, g: Id): (c: Tape)
    requires TapeOk(b) && x < |b.p| && g < |b.p|
    ensures Extends(b, c)
  {
    if x in b.grads then Combine(o, b, x, g, Add) else Assign(o, b, x, g)
  }

  ghost function SubOrSet(o: Order, b: Tape, x: Id, g: Id): (c: Tape)
    requires TapeOk(b) && x < |b.p| && g < |b.p|
    ensures Extends(b, c)
  {
    if x in b.grads then Combine(o, b, x, g, Sub)
    else
      EmitOk(b, Unary(Neg, g, b.p[g].ne));
      Assign(o, Emit(b, Unary(Neg, g, b.p[g].ne)), x, |b.p|)
  }

  ghost function Add1OrSet(o: Order, b: Tape, x: Id, g: Id): (c: Tape)
    requires TapeOk(b) && x < |b.p| && g < |b.p|
    ensures Extends(b, c)
  {
    if x in b.grads then Combine(o, b, x, g, Add1)
    else
      EmitOk(b, Unary(Repeat, g, b.p[x].ne));
      Assign(o, Emit(b, Unary(Repeat, g, b.p[x].ne)), x, |b.p|)
  }

  // How one operand is served: tensors to allocate, the last of which (or else the
  // gradient of the node itself) is handed to one of the accumulators.
  datatype How = AddTo | SubFrom | AddScalar
  datatype Plan = Plan(emit: seq<Tensor>, how: How)

  predicate PlanOk(plan: Plan, limit: nat) {
    && |plan.emit| <= 2
    && (|plan.emit| > 0 ==> Names(plan.emit[0], limit))
    && (|plan.emit| > 1 ==> Names(plan.emit[1], limit + 1))
  }

  predicate HasRule(op: Op) {
    op != NoOp && op != Cpy && !op.Other?
  }

  // The case of each operation for its first operand, where g is the gradient of node n,
  // z the next tensor to be allocated and ng, nx the sizes of g and of the operand.
  function FirstPlan(t: Tensor, n: Id, g: Id, z: Id, ng: Count, nx: Count): (plan: Plan)
    requires HasRule(t.op)
  {
    var x, y := First(t), Second(t);
    match t.op
    case Dup | Add | Add1 | Sub => Plan([], AddTo)
    case Mul => Plan([Binary(Mul, g, y, ng)], AddTo)
    case Div => Plan([Binary(Div, g, y, ng)], AddTo)
    case Sqr => Plan([Binary(Mul, x, g, nx), Unary(Scale(2.0, 0.0), z, nx)], AddTo)
    case Sqrt => Plan([Binary(Div, g, n, ng), Unary(Scale(0.5, 0.0), z, ng)], AddTo)
    case Log => Plan([Binary(Div, g, x, ng)], AddTo)
    case Sin => Plan([Unary(Cos, x, nx), Binary(Mul, g, z, ng)], AddTo)
    case Cos => Plan([Unary(Sin, x, nx), Binary(Mul, g, z, ng)], SubFrom)
    case Sum => Plan([], AddScalar)
    case Mean => Plan([Unary(Scale(1.0 / (nx as real), 0.0), g, ng)], AddScalar)
    case Repeat => Plan([Unary(RepeatBack, g, nx)], AddTo)
    case RepeatBack => Plan([Unary(Repeat, g, nx)], AddTo)
    case Scale(k, _) => Plan([Unary(Scale(k, 0.0), g, ng)], AddTo)
    case Neg => Plan([], SubFrom)
    case Exp => Plan([Binary(Mul, n, g, t.ne)], AddTo)
    case _ => assert false; Plan([], AddTo)
  }

  // The same for the second operand of size ny.
  function SecondPlan(t: Tensor, n: Id, g: Id, z: Id, ng: Count, nx: Count, ny: Count): (plan: Plan)
    requires IsBinary(t.op) || t.op == Add1
  {
    var x, y := First(t), Second(t);
    match t.op
    case Add => if nx == ny then Plan([], AddTo) else Plan([Unary(RepeatBack, g, ny)], AddTo)
    case Add1 => Plan([Unary(Mean, g, 1)], AddTo)
    case Sub => Plan([], SubFrom)
    case Mul =>
      if nx == ny then Plan([Binary(Mul, x, g, nx)], AddTo)
      else Plan([Binary(Mul, x, g, nx), Unary(RepeatBack, z, ny)], AddTo)
    case Div => Plan([Binary(Div, n, y, t.ne), Binary(Mul, g, z, ng)], SubFrom)
    case _ => assert false; Plan([], AddTo)
  }

  lemma FirstPlanOk(t: Tensor, n: Id, g: Id, z: Id, ng: Count, nx: Count)
    requires HasRule(t.op) && n < z && g < z && First(t) < z && Second(t) < z
    ensures PlanOk(FirstPlan(t, n, g, z, ng, nx), z)
  {
  }

  lemma SecondPlanOk(t: Tensor, n: Id, g: Id, z: Id, ng: Count, nx: Count, ny: Count)
    requires (IsBinary(t.op) || t.op == Add1) && n < z && g < z && First(t) < z && Second(t) < z
    ensures PlanOk(SecondPlan(t, n, g, z, ng, nx, ny), z)
  {
  }

  ghost function EmitAll(b: Tape, plan: Plan): (c: Tape)
    requires TapeOk(b) && PlanOk(plan, |b.p|)
    ensures Extends(b, c) && c.p == b.p + plan.emit && c.grads == b.grads
  {
    if |plan.emit| == 0 then b
    else
      EmitOk(b, plan.emit[0]);
      if |plan.emit| == 1 then Emit(b, plan.emit[0])
      else
        EmitOk(Emit(b, plan.emit[0]), plan.emit[1]);
        Emit(Emit(b, plan.emit[0]), plan.emit[1])
  }

  // The tensor handed to the accumulator.
  function Handed(limit: nat, plan: Plan, g: Id): Id {
    if |plan.emit| == 0 then g else limit + |plan.emit| - 1
  }

  ghost function Accumulate(o: Order, b: Tape, how: How, x: Id, h: Id): (c: Tape)
    requires TapeOk(b) && x < |b.p| && h < |b.p|
    ensures Extends(b, c)
  {
    match how
    case AddTo => AddOrSet(o, b, x, h)
    case SubFrom => SubOrSet(o, b, x, h)
    case AddScalar => Add1OrSet(o, b, x, h)
  }

  ghost function Serve(o: Order, b: Tape, plan: Plan, x: Id, g: Id): (c: Tape)
    requires TapeOk(b) && x < |b.p| && g < |b.p| && PlanOk(plan, |b.p|)
    ensures Extends(b, c)
  {
    Accumulate(o, EmitAll(b, plan), plan.how, x, Handed(|b.p|, plan, g))
  }

  // The contribution to the first and to the second operand of node n whose gradient is g.
  ghost function BackFirst(o: Order, b: Tape, n: Id, g: Id): (c: Tape)
    requires TapeOk(b) && n < |b.p| && g < |b.p| && HasRule(b.p[n].op) && First(b.p[n]) < n && Second(b.p[n]) < n
    ensures Extends(b, c)
  {
    var t := b.p[n];
    FirstPlanOk(t, n, g, |b.p|, b.p[g].ne, b.p[First(t)].ne);
    Serve(o, b, FirstPlan(t, n, g, |b.p|, b.p[g].ne, b.p[First(t)].ne), First(t), g)
  }

  ghost function BackSecond(o: Order, b: Tape, n: Id, g: Id): (c: Tape)
    requires TapeOk(b) && n < |b.p| && g < |b.p| && First(b.p[n]) < n && Second(b.p[n]) < n
    requires IsBinary(b.p[n].op) || b.p[n].op == Add1
    ensures Extends(b, c)
  {
    var t := b.p[n];
    SecondPlanOk(t, n, g, |b.p|, b.p[g].ne, b.p[First(t)].ne, b.p[Second(t)].ne);
    Serve(o, b, SecondPlan(t, n, g, |b.p|, b.p[g].ne, b.p[First(t)].ne, b.p[Second(t)].ne), Second(t), g)
  }

  // Serving an operand gives it a gradient and no other tensor.
  lemma AccumulateKeys(o: Order, b: Tape, how: How, x: Id, h: Id)
    requires TapeOk(b) && x < |b.p| && h < |b.p|
    ensures Accumulate(o, b, how, x, h).grads.Keys == b.grads.Keys + {x}
  {
  }

  lemma FirstKeys(o: Order, b: Tape, n: Id, g: Id)
    requires TapeOk(b) && n < |b.p| && g < |b.p| && HasRule(b.p[n].op) && First(b.p[n]) < n && Second(b.p[n]) < n
    ensures BackFirst(o, b, n, g).grads.Keys == b.grads.Keys + {First(b.p[n])}
  {
    hide FirstPlan, Accumulate;
    var t := b.p[n];
    FirstPlanOk(t, n, g, |b.p|, b.p[g].ne, b.p[First(t)].ne);
    var plan := FirstPlan(t, n, g, |b.p|, b.p[g].ne, b.p[First(t)].ne);
    AccumulateKeys(o, EmitAll(b, plan), plan.how, First(t), Handed(|b.p|, plan, g));
  }

  lemma SecondKeys(o: Order, b: Tape, n: Id, g: Id)
    requires TapeOk(b) && n < |b.p| && g < |b.p| && First(b.p[n]) < n && Second(b.p[n]) < n
    requires IsBinary(b.p[n].op) || b.p[n].op == Add1
    ensures BackSecond(o, b, n, g).grads.Keys == b.grads.Keys + {Second(b.p[n])}
  {
    hide SecondPlan, Accumulate;
    var t := b.p[n];
    SecondPlanOk(t, n, g, |b.p|, b.p[g].ne, b.p[First(t)].ne, b.p[Second(t)].ne);
    var plan := SecondPlan(t, n, g, |b.p|, b.p[g].ne, b.p[First(t)].ne, b.p[Second(t)].ne);
    AccumulateKeys(o, EmitAll(b, plan), plan.how, Second(t), Handed(|b.p|, plan, g));
  }

  // One call of ggml_compute_backward.
  ghost function ComputeBackward(o: Order, b: Tape, n: Id, needed: set<Id>): (c: Tape)
    requires TapeOk(b) && n < |b.p| && (n in b.grads ==> Shaped(b.p, n))
    ensures Extends(b, c)
  {
    if n !in b.grads || b.p[n].op == NoOp then b
    else
      var t := b.p[n];
      var g := b.grads[n];
      var c := if First(t) in needed then BackFirst(o, b, n, g) else b;
      if (IsBinary(t.op) || t.op == Add1) && Second(t) in needed then BackSecond(o, c, n, g) else c
  }

  lemma ComputeKeys(o: Order, b: Tape, n: Id, needed: set<Id>)
    requires TapeOk(b) && n < |b.p| && (n in b.grads ==> Shaped(b.p, n)) && b.grads.Keys <= needed
    ensures ComputeBackward(o, b, n, needed).grads.Keys <= needed
  {
    hide BackFirst, BackSecond;
    if n in b.grads && b.p[n].op != NoOp {
      var t, g := b.p[n], b.grads[n];
      if First(t) in needed { FirstKeys(o, b, n, g); }
      var c := if First(t) in needed then BackFirst(o, b, n, g) else b;
      if (IsBinary(t.op) || t.op == Add1) && Second(t) in needed { SecondKeys(o, c, n, g); }
    }
  }

  // Whether any operand is needed.
  predicate AnyNeeded(t: Tensor, needed: set<Id>) {
    exists k :: 0 <= k < |t.src| && t.src[k].Some? && t.src[k].value in needed
  }

  // Which of the first k forward nodes need gradients.
  function Needed(p: Pool, nodes: seq<Id>, k: nat): set<Id>
    requires k <= |nodes| && InPool(p, nodes)
  {
    if k == 0 then {} else
      var prev, n := Needed(p, nodes, k - 1), nodes[k - 1];
      if p[n].param || p[n].loss || AnyNeeded(p[n], prev) then prev + {n} else prev
  }

  // Losses get a fresh gradient accumulator, in node order.
  ghost function SeedLosses(b: Tape, nodes: seq<Id>, k: nat): (c: Tape)
    requires TapeOk(b) && k <= |nodes| && InPool(b.p, nodes)
    ensures TapeOk(c) && b.p <= c.p && c.s == b.s && c.grads.Keys <= b.grads.Keys + Needed(b.p, nodes, k)
  {
    if k == 0 then b else
      var c := SeedLosses(b, nodes, k - 1);
      var n := nodes[k - 1];
      if c.p[n].loss then
        Tape(c.p + [Tensor(NoOp, [], c.p[n].ne)], c.s, c.grads[n := |c.p|], c.accs[n := |c.p|])
      else c
  }

  ghost predicate AllShaped(p: Pool, nodes: seq<Id>) {
    forall k :: 0 <= k < |nodes| ==> nodes[k] < |p| && Shaped(p, nodes[k])
  }

  // The operations that take part in the gradients are modelled ones.
  ghost predicate NeededShaped(p: Pool, nodes: seq<Id>, needed: set<Id>) {
    forall k :: 0 <= k < |nodes| ==> nodes[k] < |p| && (nodes[k] in needed ==> Shaped(p, nodes[k]))
  }

  // What the loop starts from and keeps: only nodes that need gradients have them.
  ghost predicate LoopOk(b: Tape, nodes: seq<Id>, needed: set<Id>) {
    TapeOk(b) && NeededShaped(b.p, nodes, needed) && b.grads.Keys <= needed
  }

  lemma ShapedStable(p: Pool, q: Pool, n: Id)
    requires p <= q && n < |p| && Shaped(p, n)
    ensures Shaped(q, n)
  {
    var t := p[n];
    assert q[n] == t;
    if |t.src| > 0 && t.src[0].Some? && t.src[0].value < n { assert q[t.src[0].value] == p[t.src[0].value]; }
    if |t.src| > 1 && t.src[1].Some? && t.src[1].value < n { assert q[t.src[1].value] == p[t.src[1].value]; }
  }

  lemma AllShapedStable(p: Pool, q: Pool, nodes: seq<Id>)
    requires p <= q && AllShaped(p, nodes)
    ensures AllShaped(q, nodes)
  {
    forall k | 0 <= k < |nodes| ensures nodes[k] < |q| && Shaped(q, nodes[k]) {
      ShapedStable(p, q, nodes[k]);
    }
  }

  lemma NeededShapedStable(p: Pool, q: Pool, nodes: seq<Id>, needed: set<Id>)
    requires p <= q && NeededShaped(p, nodes, needed)
    ensures NeededShaped(q, nodes, needed)
  {
    forall k | 0 <= k < |nodes| ensures nodes[k] < |q| && (nodes[k] in needed ==> Shaped(q, nodes[k])) {
      if nodes[k] in needed { ShapedStable(p, q, nodes[k]); }
    }
  }

  lemma LoopStays(o: Order, b: Tape, nodes: seq<Id>, k: nat, needed: set<Id>)
    requires LoopOk(b, nodes, needed) && k < |nodes|
    ensures LoopOk(ComputeBackward(o, b, nodes[k], needed), nodes, needed)
  {
    hide ComputeBackward;
    ComputeKeys(o, b, nodes[k], needed);
    NeededShapedStable(b.p, ComputeBackward(o, b, nodes[k], needed).p, nodes, needed);
  }

  // The reverse loop over the first k forward nodes.
  ghost function BackwardLoop(o: Order, b: Tape, nodes: seq<Id>, k: nat, needed: set<Id>): (c: Tape)
    requires LoopOk(b, nodes, needed) && k <= |nodes|
    ensures Extends(b, c)
    decreases k
  {
    hide ComputeBackward;
    if k == 0 then b else
      var c := ComputeBackward(o, b, nodes[k - 1], needed);
      LoopStays(o, b, nodes, k - 1, needed);
      var d := BackwardLoop(o, c, nodes, k - 1, needed);
      ExtendsTrans(b, c, d);
      d
  }

  lemma LoopUnfold(o: Order, b: Tape, nodes: seq<Id>, k: nat, needed: set<Id>)
    requires LoopOk(b, nodes, needed) && 0 < k <= |nodes|
    ensures var c := ComputeBackward(o, b, nodes[k - 1], needed);
      LoopOk(c, nodes, needed) && BackwardLoop(o, b, nodes, k, needed) == BackwardLoop(o, c, nodes, k - 1, needed)
  {
    hide ComputeBackward;
    LoopStays(o, b, nodes, k - 1, needed);
  }

  // Every node that depends on a parameter or a loss is a modelled operation.
  ghost predicate Served(p: Pool, nodes: seq<Id>) {
    InPool(p, nodes) && NeededShaped(p, nodes, Needed(p, nodes, |nodes|))
  }

  ghost function Seeded(p: Pool, s: State): (b: Tape)
    requires WellFormed(p) && Served(p, s.nodes)
    ensures p <= b.p && LoopOk(b, s.nodes, Needed(p, s.nodes, |s.nodes|))
  {
    var b := SeedLosses(Tape(p, s, map[], map[]), s.nodes, |s.nodes|);
    NeededShapedStable(p, b.p, s.nodes, Needed(p, s.nodes, |s.nodes|));
    b
  }

  ghost function BuildBackward(o: Order, p: Pool, s: State): (b: Tape)
    requires WellFormed(p) && Served(p, s.nodes)
    ensures TapeOk(b) && p <= b.p
  {
    BackwardLoop(o, Seeded(p, s), s.nodes, |s.nodes|, Needed(p, s.nodes, |s.nodes|))
  }
}
