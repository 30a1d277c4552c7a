// Building the gradient graph keeps the graph well built.
module BackwardGraph {
  import opened Tensors
  import opened Values
  import opened GraphBuild
  import opened GraphRuns
  import opened Backward

  // The graph has grown from the given nodes in order, and every gradient that is not an
  // accumulator has been visited by it.
  ghost predicate Kept(nodes: seq<Id>, b: Tape) {
    && GraphInv(b.p, b.s) && nodes <= b.s.nodes
    && forall x :: x in b.grads ==> b.grads[x] in b.s.uses || (x in b.accs && b.grads[x] == b.accs[x])
  }

  lemma EmitKeeps(nodes: seq<Id>, b: Tape, t: Tensor)
    requires Kept(nodes, b) && Names(t, |b.p|)
    ensures Kept(nodes, Emit(b, t))
  {
    AllocInv(b.p, b.s, t);
  }

  lemma AssignKeeps(nodes: seq<Id>, o: Order, b: Tape, x: Id, g: Id)
    requires Kept(nodes, b) && TapeOk(b) && x < |b.p| && g < |b.p|
    ensures Kept(nodes, Assign(o, b, x, g))
  {
    VisitInv(b.p, o, b.s, g, true);
  }

  lemma CombineKeeps(nodes: seq<Id>, o: Order, b: Tape, x: Id, g: Id, op: Op)
    requires Kept(nodes, b) && TapeOk(b) && x in b.grads && g < |b.p| && op != NoOp
    ensures Kept(nodes, Combine(o, b, x, g, op))
  {
    var t := Binary(op, b.grads[x], g, b.p[b.grads[x]].ne);
    EmitKeeps(nodes, b, t);
    EmitOk(b, t);
    AssignKeeps(nodes, o, Emit(b, t), x, |b.p|);
  }

  lemma StartKeeps(nodes: seq<Id>, o: Order, b: Tape, x: Id, t: Tensor)
    requires Kept(nodes, b) && TapeOk(b) && x < |b.p| && Names(t, |b.p|)
    ensures TapeOk(Emit(b, t)) && Kept(nodes, Assign(o, Emit(b, t), x, |b.p|))
  {
    EmitKeeps(nodes, b, t);
    EmitOk(b, t);
    AssignKeeps(nodes, o, Emit(b, t), x, |b.p|);
  }

  lemma AccumulateKeeps(nodes: seq<Id>, o: Order, b: Tape, how: How, x: Id, h: Id)
    requires Kept(nodes, b) && TapeOk(b) && x < |b.p| && h < |b.p|
    ensures Kept(nodes, Accumulate(o, b, how, x, h))
  {
    if x in b.grads {
      CombineKeeps(nodes, o, b, x, h, if how == AddTo then Add else if how == SubFrom then Sub else Add1);
    } else if how == AddTo {
      AssignKeeps(nodes, o, b, x, h);
    } else {
      StartKeeps(nodes, o, b, x, if how == SubFrom then Unary(Neg, h, b.p[h].ne) else Unary(Repeat, h, b.p[x].ne));
    }
  }

  lemma EmitAllKeeps(nodes: seq<Id>, b: Tape, plan: Plan)
    requires Kept(nodes, b) && TapeOk(b) && PlanOk(plan, |b.p|)
    ensures Kept(nodes, EmitAll(b, plan))
  {
    if |plan.emit| > 0 {
      EmitKeeps(nodes, b, plan.emit[0]);
      if |plan.emit| > 1 { EmitKeeps(nodes, Emit(b, plan.emit[0]), plan.emit[1]); }
    }
  }

  lemma ServeKeeps(nodes: seq<Id>, o: Order, b: Tape, plan: Plan, x: Id, g: Id)
    requires Kept(nodes, b) && TapeOk(b) && x < |b.p| && g < |b.p| && PlanOk(plan, |b.p|)
    ensures Kept(nodes, Serve(o, b, plan, x, g))
  {
    EmitAllKeeps(nodes, b, plan);
    AccumulateKeeps(nodes, o, EmitAll(b, plan), plan.how, x, Handed(|b.p|, plan, g));
  }

  lemma FirstKeeps(nodes: seq<Id>, o: Order, b: Tape, n: Id, g: Id)
    requires Kept(nodes, b) && TapeOk(b) && n < |b.p| && g < |b.p| && HasRule(b.p[n].op)
    requires First(b.p[n]) < n && Second(b.p[n]) < n
    ensures Kept(nodes, BackFirst(o, b, n, g))
  {
    var t := b.p[n];
    FirstPlanOk(t, n, g, |b.p|, b.p[g].ne, b.p[First(t)].ne);
    ServeKeeps(nodes, o, b, FirstPlan(t, n, g, |b.p|, b.p[g].ne, b.p[First(t)].ne), First(t), g);
  }

  lemma SecondKeeps(nodes: seq<Id>, o: Order, b: Tape, n: Id, g: Id)
    requires Kept(nodes, b) && TapeOk(b) && n < |b.p| && g < |b.p| && First(b.p[n]) < n && Second(b.p[n]) < n
    requires IsBinary(b.p[n].op) || b.p[n].op == Add1
    ensures Kept(nodes, BackSecond(o, b, n, g))
  {
    var t := b.p[n];
    SecondPlanOk(t, n, g, |b.p|, b.p[g].ne, b.p[First(t)].ne, b.p[Second(t)].ne);
    ServeKeeps(nodes, o, b, SecondPlan(t, n, g, |b.p|, b.p[g].ne, b.p[First(t)].ne, b.p[Second(t)].ne), Second(t), g);
  }

  lemma ComputeKeeps(nodes: seq<Id>, o: Order, b: Tape, n: Id, needed: set<Id>)
    requires Kept(nodes, b) && TapeOk(b) && n < |b.p| && (n in b.grads ==> Shaped(b.p, n))
    ensures Kept(nodes, ComputeBackward(o, b, n, needed))
  {
    if n in b.grads && b.p[n].op != NoOp {
      var t, g := b.p[n], b.grads[n];
      if First(t) in needed { FirstKeeps(nodes, o, b, n, g); }
      var c := if First(t) in needed then BackFirst(o, b, n, g) else b;
      if (IsBinary(t.op) || t.op == Add1) && Second(t) in needed { SecondKeeps(nodes, o, c, n, g); }
    }
  }

  lemma {:induction false} LoopKeeps(nodes: seq<Id>, o: Order, b: Tape, list: seq<Id>, k: nat, needed: set<Id>)
    requires Kept(nodes, b) && LoopOk(b, list, needed) && k <= |list|
    ensures Kept(nodes, BackwardLoop(o, b, list, k, needed))
    decreases k
  {
    if k > 0 {
      ComputeKeeps(nodes, o, b, list[k - 1], needed);
      LoopUnfold(o, b, list, k, needed);
      LoopKeeps(nodes, o, ComputeBackward(o, b, list[k - 1], needed), list, k - 1, needed);
    }
  }

  lemma {:induction false} SeedsKeep(nodes: seq<Id>, b: Tape, list: seq<Id>, k: nat)
    requires Kept(nodes, b) && TapeOk(b) && k <= |list| && InPool(b.p, list)
    ensures Kept(nodes, SeedLosses(b, list, k))
  {
    hide GraphInv;
    if k > 0 {
      SeedsKeep(nodes, b, list, k - 1);
      var c := SeedLosses(b, list, k - 1);
      AllocInv(c.p, c.s, Tensor(NoOp, [], c.p[list[k - 1]].ne));
    }
  }

  // The gradient graph is as well built as the forward graph it extends: operands come first,
  // use counts stay exact, and every gradient that the loop produced is part of the graph.
  lemma GradientGraphBuilt(o: Order, p: Pool, s: State)
    requires GraphInv(p, s) && Served(p, s.nodes)
    ensures Kept(s.nodes, BuildBackward(o, p, s))
  {
    SeedsKeep(s.nodes, Tape(p, s, map[], map[]), s.nodes, |s.nodes|);
    LoopKeeps(s.nodes, o, Seeded(p, s), s.nodes, |s.nodes|, Needed(p, s.nodes, |s.nodes|));
  }
}
