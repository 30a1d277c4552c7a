// The graph object: methods that update nodes, leafs, use counts and compute flags in
// place, proved against the functions on values.
module ComputeGraph {
  import opened Options
  import opened Tensors
  import opened GraphBuild
  import opened GraphRuns
  import opened Fusion
  import opened Values
  import opened BackwardGraph
  import opened BackwardFlags
  import opened GraphFlags
  import B = Backward

  class CGraph {
    const ctx: Context
    const order: Order
    var nodes: seq<Id>
    var leafs: seq<Id>
    // The visited set with the use count of each member.
    var useCounts: map<Id, nat>
    // The gradient of each tensor that has one, and the accumulators of the losses.
    var grads: map<Id, Id>
    var gradAccs: map<Id, Id>

    ghost function View(): State
      reads this, ctx
    {
      State(nodes, leafs, useCounts, ctx.compute)
    }

    constructor (ctx: Context)
      ensures this.ctx == ctx && order == LeftToRight
      ensures nodes == [] && leafs == [] && useCounts == map[]
    {
      this.ctx := ctx;
      order := LeftToRight;
      nodes := [];
      leafs := [];
      useCounts := map[];
      grads := map[];
      gradAccs := map[];
    }

    method VisitParents(n: Id, compute: bool)
      requires WellFormed(ctx.tensors) && n < |ctx.tensors|
      modifies this`nodes, this`leafs, this`useCounts, ctx`compute
      ensures View() == Visit(ctx.tensors, order, old(View()), n, compute)
      decreases Left(ctx.tensors, View()), VisitRank(ctx.tensors, View(), n), 0
    {
      var node := ctx.tensors[n];
      MarkLeft(ctx.tensors, View(), n, compute);
      if node.op != NoOp && compute {
        ctx.compute := ctx.compute + {n};
      }
      if n in useCounts {
        // already visited
        if compute {
          PushComputeFlag(n);
        }
        return;
      }
      // first time this tensor is seen in the current graph
      useCounts := useCounts[n := 0];
      assert View() == Open(ctx.tensors, old(View()), n, compute);
      VisitOperands(n, compute);
      if node.op == NoOp && !node.param {
        leafs := leafs + [n];
      } else {
        nodes := nodes + [n];
      }
    }

    // The loop of ggml_visit_parents_graph over the operands of a tensor visited before.
    method PushComputeFlag(n: Id)
      requires WellFormed(ctx.tensors) && n < |ctx.tensors|
      modifies this`nodes, this`leafs, this`useCounts, ctx`compute
      ensures View() == Reflag(ctx.tensors, order, old(View()), n, 0)
      decreases Left(ctx.tensors, View()), FlagRank(ctx.tensors, n), |ctx.tensors[n].src| + 1
    {
      ghost var p, before := ctx.tensors, View();
      var src := ctx.tensors[n].src;
      var i := 0;
      while i < |src|
        invariant 0 <= i <= |src| && ctx.tensors == p
        invariant Left(p, View()) <= Left(p, before)
        invariant Reflag(p, order, View(), n, i) == Reflag(p, order, before, n, 0)
      {
        if src[i].Some? && src[i].value !in ctx.compute {
          VisitParents(src[i].value, true);
        }
        i := i + 1;
      }
    }

    // Its loop over the operands of a tensor visited for the first time, in evaluation order.
    method VisitOperands(n: Id, compute: bool)
      requires WellFormed(ctx.tensors) && n < |ctx.tensors|
      modifies this`nodes, this`leafs, this`useCounts, ctx`compute
      ensures View() == VisitSources(ctx.tensors, order, old(View()), n, 0, compute)
      decreases Left(ctx.tensors, View()), 4, |ctx.tensors[n].src| + 1
    {
      ghost var p, before := ctx.tensors, View();
      var src := ctx.tensors[n].src;
      var i := 0;
      while i < |src|
        invariant 0 <= i <= |src| && ctx.tensors == p
        invariant Left(p, View()) <= Left(p, before)
        invariant VisitSources(p, order, View(), n, i, compute) == VisitSources(p, order, before, n, 0, compute)
      {
        var x := if order == LeftToRight then src[i] else src[|src| - 1 - i];
        if x.Some? {
          VisitOperand(x.value, compute);
        }
        i := i + 1;
      }
    }

    method VisitOperand(x: Id, compute: bool)
      requires WellFormed(ctx.tensors) && x < |ctx.tensors|
      modifies this`nodes, this`leafs, this`useCounts, ctx`compute
      ensures View() == CountUse(Visit(ctx.tensors, order, old(View()), x, compute), x)
      ensures Left(ctx.tensors, View()) <= Left(ctx.tensors, old(View()))
      decreases Left(ctx.tensors, View()), 4, 0
    {
      VisitParents(x, compute);
      GrowsLeft(ctx.tensors, View(), CountUse(View(), x));
      useCounts := useCounts[x := useCounts[x] + 1];
    }

    // The source asserts that a tensor which adds nodes is the last of them.
    method BuildForwardExpand(tensor: Id)
      requires GraphInv(ctx.tensors, View()) && tensor < |ctx.tensors|
      modifies this`nodes, this`leafs, this`useCounts, ctx`compute
      ensures View() == Visit(ctx.tensors, order, old(View()), tensor, true)
      ensures GraphInv(ctx.tensors, View())
      ensures ClosedExcept(ctx.tensors, old(ctx.compute), {}) ==> Expanded(ctx.tensors, old(ctx.compute), ctx.compute, tensor)
    {
      FlagsOfExpansion(ctx.tensors, order, View(), tensor);
      BuildForwardImpl(tensor, true);
    }

    method BuildForwardImpl(tensor: Id, compute: bool)
      requires GraphInv(ctx.tensors, View()) && tensor < |ctx.tensors|
      modifies this`nodes, this`leafs, this`useCounts, ctx`compute
      ensures View() == Visit(ctx.tensors, order, old(View()), tensor, compute)
      ensures GraphInv(ctx.tensors, View())
      ensures old(nodes) <= nodes
      ensures |nodes| > |old(nodes)| ==> nodes[|nodes| - 1] == tensor
    {
      VisitInv(ctx.tensors, order, View(), tensor, compute);
      VisitParents(tensor, compute);
    }

    // One round of the selection, which is done when all rounds are.
    method SelectOne(ghost done: State, tensors: seq<Id>, idx: nat, i: nat)
      requires GraphInv(ctx.tensors, View()) && i < |tensors| && InPool(ctx.tensors, tensors)
      requires SelectFrom(ctx.tensors, order, View(), tensors, idx, i) == done
      modifies this`nodes, this`leafs, this`useCounts, ctx`compute
      ensures GraphInv(ctx.tensors, View()) && SelectFrom(ctx.tensors, order, View(), tensors, idx, i + 1) == done
    {
      BuildForwardImpl(tensors[i], i == idx);
    }

    method BuildForwardSelect(tensors: seq<Id>, idx: nat) returns (chosen: Id)
      requires GraphInv(ctx.tensors, View()) && idx < |tensors| && InPool(ctx.tensors, tensors)
      modifies this`nodes, this`leafs, this`useCounts, ctx`compute
      ensures View() == SelectFrom(ctx.tensors, order, old(View()), tensors, idx, 0)
      ensures GraphInv(ctx.tensors, View()) && chosen == tensors[idx]
    {
      hide WellFormed;
      ghost var done := SelectFrom(ctx.tensors, order, View(), tensors, idx, 0);
      for i := 0 to |tensors|
        invariant GraphInv(ctx.tensors, View())
        invariant SelectFrom(ctx.tensors, order, View(), tensors, idx, i) == done
      {
        SelectOne(done, tensors, idx, i);
      }
      chosen := tensors[idx];
    }

    method NodeListFindTensor(idxs: seq<nat>, x: Id) returns (r: int)
      ensures r == -1 <==> !Lists(nodes, idxs, x)
      ensures r != -1 ==> 0 <= r < |idxs| && idxs[r] < |nodes| && nodes[idxs[r]] == x
    {
      for i := 0 to |idxs|
        invariant forall k :: 0 <= k < i ==> idxs[k] < |nodes| && nodes[idxs[k]] != x
      {
        if idxs[i] >= |nodes| {
          return -1;
        }
        if nodes[idxs[i]] == x {
          return i;
        }
      }
      return -1;
    }

    method CanFuseSubgraph(idxs: seq<nat>, ops: seq<OpKind>, outputs: seq<nat>) returns (r: bool)
      requires GraphInv(ctx.tensors, View()) && ViewsOrdered(ctx.tensors)
      requires |idxs| <= |ops| && |outputs| > 0
      ensures forall n :: n in nodes ==> n < |ctx.tensors|
      ensures r <==> forall i :: 0 <= i < |idxs| ==> NodePasses(ctx.tensors, View(), idxs, ops, outputs, i)
      ensures Distinct(idxs) ==> (r <==> forall i :: 0 <= i < |idxs| ==> NodeFusable(ctx.tensors, View(), idxs, ops, outputs, i))
    {
      AllInPool();
      if Distinct(idxs) {
        forall i | 0 <= i < |idxs|
          ensures NodePasses(ctx.tensors, View(), idxs, ops, outputs, i) <==> NodeFusable(ctx.tensors, View(), idxs, ops, outputs, i)
        {
          PassingIsFusable(ctx.tensors, View(), idxs, ops, outputs, i);
        }
      }
      for i := 0 to |idxs|
        invariant forall k :: 0 <= k < i ==> NodePasses(ctx.tensors, View(), idxs, ops, outputs, k)
      {
        var ok := NodeCanFuse(idxs, ops, outputs, i);
        if !ok {
          return false;
        }
      }
      return true;
    }

    lemma AllInPool()
      requires GraphInv(ctx.tensors, View())
      ensures forall n :: n in nodes ==> n < |ctx.tensors|
    {
    }

    // One round of the loop of ggml_can_fuse_subgraph_ext.
    method NodeCanFuse(idxs: seq<nat>, ops: seq<OpKind>, outputs: seq<nat>, i: nat) returns (r: bool)
      requires GraphInv(ctx.tensors, View()) && ViewsOrdered(ctx.tensors)
      requires i < |idxs| <= |ops|
      ensures forall n :: n in nodes ==> n < |ctx.tensors|
      ensures r <==> NodePasses(ctx.tensors, View(), idxs, ops, outputs, i)
    {
      if idxs[i] >= |nodes| {
        return false;
      }
      var n := nodes[idxs[i]];
      assert n in nodes;
      if Kind(ctx.tensors[n].op) != ops[i] || n !in ctx.compute {
        return false;
      }
      var found := NodeListFindTensor(outputs, n);
      if found != -1 {
        return true;
      }
      if ctx.tensors[n].output {
        return false;
      }
      var subgraphUses := UsesAfter(idxs, i + 1, n);
      assert n in useCounts;
      if subgraphUses != useCounts[n] {
        return false;
      }
      r := ViewSourcesInside(idxs, n);
    }

    method UsesAfter(idxs: seq<nat>, start: nat, n: Id) returns (uses: nat)
      requires start <= |idxs| && forall m :: m in nodes ==> m < |ctx.tensors|
      ensures uses == SubgraphUses(ctx.tensors, nodes, idxs, start, n)
    {
      uses := 0;
      for j := start to |idxs|
        invariant uses + SubgraphUses(ctx.tensors, nodes, idxs, j, n) == SubgraphUses(ctx.tensors, nodes, idxs, start, n)
      {
        // The source reads the node array here before checking idxs[j] against its
        // length; whatever it reads, the answer is false once it reaches j.
        if idxs[j] < |nodes| {
          assert nodes[idxs[j]] in nodes;
          var slots := CountSlots(ctx.tensors[nodes[idxs[j]]].src, n);
          uses := uses + slots;
        }
      }
    }

    method CountSlots(src: seq<Option<Id>>, x: Id) returns (c: nat)
      ensures c == multiset(src)[Some(x)]
    {
      c := 0;
      for k := 0 to |src|
        invariant c == multiset(src[..k])[Some(x)]
      {
        assert src[..k + 1] == src[..k] + [src[k]];
        if src[k] == Some(x) {
          c := c + 1;
        }
      }
      assert src[..|src|] == src;
    }

    method ViewSourcesInside(idxs: seq<nat>, x: Id) returns (r: bool)
      requires ViewsOrdered(ctx.tensors) && x < |ctx.tensors|
      ensures r <==> ViewsInside(ctx.tensors, nodes, idxs, x)
    {
      var p := ctx.tensors;
      var at: Id := x;
      while p[at].viewSrc.Some?
        invariant 0 <= at < |p|
        invariant ViewsInside(p, nodes, idxs, at) <==> ViewsInside(p, nodes, idxs, x)
        decreases at
      {
        var v := p[at].viewSrc.value;
        var found := NodeListFindTensor(idxs, v);
        if found == -1 && !(p[v].constant && !p[v].param) {
          return false;
        }
        at := v;
      }
      return true;
    }

    // ---- gradients ---------------------------------------------------------------------------------

    ghost function TapeView(): B.Tape
      reads this, ctx
    {
      B.Tape(ctx.tensors, View(), grads, gradAccs)
    }

    // What every step of the construction may rely on and keeps.
    ghost predicate Ready()
      reads this, ctx
    {
      B.TapeOk(TapeView()) && Kept([], TapeView())
    }

    // Set the gradient of x and expand the graph by it.
    method SetGrad(x: Id, g: Id)
      requires Ready() && x < |ctx.tensors| && g < |ctx.tensors|
      modifies this, ctx`compute
      ensures Ready() && TapeView() == B.Assign(order, old(TapeView()), x, g)
      ensures ClosedExcept(ctx.tensors, old(ctx.compute), {}) ==> Expanded(ctx.tensors, old(ctx.compute), ctx.compute, g)
    {
      AssignKeeps([], order, TapeView(), x, g);
      grads := grads[x := g];
      BuildForwardExpand(g);
    }

    method NewOperation(t: Tensor) returns (id: Id)
      requires Ready() && B.Names(t, |ctx.tensors|)
      modifies ctx`tensors
      ensures Ready() && id == old(|ctx.tensors|) && TapeView() == B.Emit(old(TapeView()), t)
    {
      EmitKeeps([], TapeView(), t);
      B.EmitOk(TapeView(), t);
      id := ctx.NewTensor(t);
    }

    // Without a caller's accumulator for x the source allocates the combined gradient anew.
    method AddOrSet(x: Id, g: Id)
      requires Ready() && x < |ctx.tensors| && g < |ctx.tensors|
      modifies this, ctx
      ensures Ready() && TapeView() == B.AddOrSet(order, old(TapeView()), x, g)
    {
      if x in grads {
        var sum := NewOperation(B.Binary(Add, grads[x], g, ctx.tensors[grads[x]].ne));
        SetGrad(x, sum);
      } else {
        SetGrad(x, g);
      }
    }

    method SubOrSet(x: Id, g: Id)
      requires Ready() && x < |ctx.tensors| && g < |ctx.tensors|
      modifies this, ctx
      ensures Ready() && TapeView() == B.SubOrSet(order, old(TapeView()), x, g)
    {
      if x in grads {
        var difference := NewOperation(B.Binary(Sub, grads[x], g, ctx.tensors[grads[x]].ne));
        SetGrad(x, difference);
      } else {
        var negated := NewOperation(B.Unary(Neg, g, ctx.tensors[g].ne));
        SetGrad(x, negated);
      }
    }

    method Add1OrSet(x: Id, g: Id)
      requires Ready() && x < |ctx.tensors| && g < |ctx.tensors|
      modifies this, ctx
      ensures Ready() && TapeView() == B.Add1OrSet(order, old(TapeView()), x, g)
    {
      if x in grads {
        var sum := NewOperation(B.Binary(Add1, grads[x], g, ctx.tensors[grads[x]].ne));
        SetGrad(x, sum);
      } else {
        var repeated := NewOperation(B.Unary(Repeat, g, ctx.tensors[x].ne));
        SetGrad(x, repeated);
      }
    }

    method EmitAll(plan: B.Plan, g: Id) returns (h: Id)
      requires Ready() && g < |ctx.tensors| && B.PlanOk(plan, |ctx.tensors|)
      modifies ctx`tensors
      ensures Ready() && TapeView() == B.EmitAll(old(TapeView()), plan)
      ensures h == B.Handed(old(|ctx.tensors|), plan, g)
    {
      h := g;
      if |plan.emit| > 0 {
        h := NewOperation(plan.emit[0]);
      }
      if |plan.emit| > 1 {
        h := NewOperation(plan.emit[1]);
      }
    }

    method Accumulate(how: B.How, x: Id, h: Id)
      requires Ready() && x < |ctx.tensors| && h < |ctx.tensors|
      modifies this, ctx
      ensures Ready() && TapeView() == B.Accumulate(order, old(TapeView()), how, x, h)
    {
      match how
      case AddTo => AddOrSet(x, h);
      case SubFrom => SubOrSet(x, h);
      case AddScalar => Add1OrSet(x, h);
    }

    // One operand's share of the switch over operations: allocate what the case builds and
    // hand the last of it to the case's accumulator.
    method Serve(plan: B.Plan, x: Id, g: Id)
      requires Ready() && x < |ctx.tensors| && g < |ctx.tensors| && B.PlanOk(plan, |ctx.tensors|)
      modifies this, ctx
      ensures Ready() && TapeView() == B.Serve(order, old(TapeView()), plan, x, g)
    {
      var h := EmitAll(plan, g);
      Accumulate(plan.how, x, h);
    }

    method ComputeBackward(n: Id, needed: set<Id>)
      requires Ready() && n < |ctx.tensors| && (n in grads ==> Shaped(ctx.tensors, n))
      modifies this, ctx
      ensures Ready() && TapeView() == B.ComputeBackward(order, old(TapeView()), n, needed)
    {
      if n !in grads || ctx.tensors[n].op == NoOp {
        return;
      }
      var t, g := ctx.tensors[n], grads[n];
      if First(t) in needed {
        ServeFirst(n, g);
      }
      if (IsBinary(t.op) || t.op == Add1) && Second(t) in needed {
        ServeSecond(n, g);
      }
    }

    method ServeFirst(n: Id, g: Id)
      requires Ready() && n < |ctx.tensors| && g < |ctx.tensors| && B.HasRule(ctx.tensors[n].op)
      requires First(ctx.tensors[n]) < n && Second(ctx.tensors[n]) < n
      modifies this, ctx
      ensures Ready() && TapeView() == B.BackFirst(order, old(TapeView()), n, g)
    {
      var p := ctx.tensors;
      var t := p[n];
      B.FirstPlanOk(t, n, g, |p|, p[g].ne, p[First(t)].ne);
      Serve(B.FirstPlan(t, n, g, |p|, p[g].ne, p[First(t)].ne), First(t), g);
    }

    method ServeSecond(n: Id, g: Id)
      requires Ready() && n < |ctx.tensors| && g < |ctx.tensors|
      requires First(ctx.tensors[n]) < n && Second(ctx.tensors[n]) < n
      requires IsBinary(ctx.tensors[n].op) || ctx.tensors[n].op == Add1
      modifies this, ctx
      ensures Ready() && TapeView() == B.BackSecond(order, old(TapeView()), n, g)
    {
      var p := ctx.tensors;
      var t := p[n];
      B.SecondPlanOk(t, n, g, |p|, p[g].ne, p[First(t)].ne, p[Second(t)].ne);
      Serve(B.SecondPlan(t, n, g, |p|, p[g].ne, p[First(t)].ne, p[Second(t)].ne), Second(t), g);
    }

    method AnyNeeded(t: Tensor, needed: set<Id>) returns (r: bool)
      ensures r == B.AnyNeeded(t, needed)
    {
      for k := 0 to |t.src|
        invariant forall m :: 0 <= m < k ==> !(t.src[m].Some? && t.src[m].value in needed)
      {
        if t.src[k].Some? && t.src[k].value in needed {
          return true;
        }
      }
      return false;
    }

    // The first loop over the forward nodes: which need gradients, with an accumulator for
    // every loss.
    method SeedLosses() returns (needed: set<Id>)
      requires WellFormed(ctx.tensors) && B.Served(ctx.tensors, nodes)
      modifies this`grads, this`gradAccs, ctx`tensors
      ensures TapeView() == B.Seeded(old(ctx.tensors), old(View()))
      ensures needed == B.Needed(old(ctx.tensors), nodes, |nodes|)
    {
      hide WellFormed;
      ghost var p, s := ctx.tensors, View();
      grads, gradAccs, needed := map[], map[], {};
      for i := 0 to |nodes|
        invariant View() == s && SeededAt(p, s, i, needed)
      {
        needed := SeedRound(p, s, i, needed);
      }
    }

    ghost predicate SeededAt(p: Pool, s: State, i: nat, needed: set<Id>)
      reads this, ctx
    {
      && WellFormed(p) && i <= |s.nodes| && InPool(p, s.nodes) && B.TapeOk(TapeView()) && p <= ctx.tensors
      && TapeView() == B.SeedLosses(B.Tape(p, s, map[], map[]), s.nodes, i)
      && needed == B.Needed(p, s.nodes, i)
    }

    method SeedRound(ghost p: Pool, ghost s: State, i: nat, needed: set<Id>) returns (now: set<Id>)
      requires i < |nodes| && View() == s && SeededAt(p, s, i, needed)
      modifies this`grads, this`gradAccs, ctx`tensors
      ensures View() == s && SeededAt(p, s, i + 1, now)
    {
      var n := nodes[i];
      assert ctx.tensors[n] == p[n];
      var any := AnyNeeded(ctx.tensors[n], needed);
      now := needed;
      if ctx.tensors[n].param || ctx.tensors[n].loss || any {
        SeedLoss(n);
        now := now + {n};
      }
    }

    // A loss always gets a gradient accumulator.
    method SeedLoss(n: Id)
      requires B.TapeOk(TapeView()) && n < |ctx.tensors|
      modifies this`grads, this`gradAccs, ctx`tensors
      ensures !old(ctx.tensors)[n].loss ==> TapeView() == old(TapeView())
      ensures old(ctx.tensors)[n].loss ==>
        var b := old(TapeView()); TapeView() == B.Tape(b.p + [Tensor(NoOp, [], b.p[n].ne)], b.s, b.grads[n := |b.p|], b.accs[n := |b.p|])
    {
      if ctx.tensors[n].loss {
        var acc := ctx.NewTensor(Tensor(NoOp, [], ctx.tensors[n].ne));
        gradAccs := gradAccs[n := acc];
        grads := grads[n := acc];
      }
    }

    method BackwardRound(forward: seq<Id>, i: nat, needed: set<Id>)
      requires Ready() && B.LoopOk(TapeView(), forward, needed) && i < |forward|
      modifies this, ctx
      ensures Ready() && B.LoopOk(TapeView(), forward, needed)
      ensures B.BackwardLoop(order, TapeView(), forward, i, needed) == B.BackwardLoop(order, old(TapeView()), forward, i + 1, needed)
    {
      ghost var before := TapeView();
      B.LoopUnfold(order, before, forward, i + 1, needed);
      ComputeBackward(forward[i], needed);
    }

    method BackwardLoop(forward: seq<Id>, needed: set<Id>)
      requires Ready() && B.LoopOk(TapeView(), forward, needed)
      modifies this, ctx
      ensures Ready() && TapeView() == B.BackwardLoop(order, old(TapeView()), forward, |forward|, needed)
    {
      ghost var end := B.BackwardLoop(order, TapeView(), forward, |forward|, needed);
      var i := |forward|;
      while i > 0
        invariant 0 <= i <= |forward| && Ready() && B.LoopOk(TapeView(), forward, needed)
        invariant B.BackwardLoop(order, TapeView(), forward, i, needed) == end
      {
        i := i - 1;
        BackwardRound(forward, i, needed);
      }
    }

    // The source asserts a node with a parameter flag and one with a loss flag.
    method BuildBackwardExpand()
      requires GraphInv(ctx.tensors, View()) && B.Served(ctx.tensors, nodes)
      requires exists i :: 0 <= i < |nodes| && ctx.tensors[nodes[i]].param
      requires exists i :: 0 <= i < |nodes| && ctx.tensors[nodes[i]].loss
      modifies this, ctx
      ensures TapeView() == B.BuildBackward(order, old(ctx.tensors), old(View()))
      ensures Kept(old(nodes), TapeView())
      ensures FlagsValid(Config(old(ctx.tensors), old(View()))) ==> Flagged(old(ctx.compute), TapeView())
    {
      GradientGraphBuilt(order, ctx.tensors, View());
      if FlagsValid(Config(ctx.tensors, View())) { GradientsFlagged(order, ctx.tensors, View()); }
      SeedsKeep([], B.Tape(ctx.tensors, View(), map[], map[]), nodes, |nodes|);
      var forward := nodes;
      var needed := SeedLosses();
      BackwardLoop(forward, needed);
    }
  }
}
