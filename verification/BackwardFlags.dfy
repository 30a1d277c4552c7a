// Which tensors the gradient builder marks for computation.
module BackwardFlags {
  import opened Options
  import opened Tensors
  import opened Values
  import opened GraphBuild
  import opened GraphFlags
  import opened GraphRuns
  import opened Backward

  // x is an operation that the gradient of some tensor is computed from, or that gradient itself.
  ghost predicate Computes(b: Tape, x: Id) {
    x < |b.p| && b.p[x].op != NoOp && exists y :: y in b.grads && Ancestor(b.p, b.grads[y], x)
  }

  // The flags are closed and are those of the start and what the gradients are computed from.
  ghost predicate Flagged(start: set<Id>, b: Tape) {
    && FlagsValid(Config(b.p, b.s))
    && forall x :: x in b.s.flags <==> x in start || Computes(b, x)
  }

  // ---- one step -------------------------------------------------------------------------------------

  lemma EmitComputes(b: Tape, t: Tensor, x: Id)
    requires TapeOk(b) && Names(t, |b.p|)
    ensures Computes(Emit(b, t), x) <==> Computes(b, x)
  {
    forall y | y in b.grads
      ensures Ancestor(b.p + [t], b.grads[y], x) <==> Ancestor(b.p, b.grads[y], x)
      ensures Ancestor(b.p, b.grads[y], x) ==> x < |b.p|
    {
      AncestorExtend(b.p, t, b.grads[y], x);
    }
  }

  lemma EmitFlagged(start: set<Id>, b: Tape, t: Tensor)
    requires Flagged(start, b) && TapeOk(b) && Names(t, |b.p|)
    ensures Flagged(start, Emit(b, t))
  {
    forall x ensures Computes(Emit(b, t), x) <==> Computes(b, x) { EmitComputes(b, t, x); }
    assert forall n: Id, y: Id :: n < |b.p| ==> (IsSource(b.p + [t], n, y) <==> IsSource(b.p, n, y));
  }

  // The gradient that g replaces is one of g's ancestors.
  ghost predicate Replaces(b: Tape, x: Id, g: Id) {
    x in b.grads ==> g < |b.p| && b.p[g].op != NoOp && IsSource(b.p, g, b.grads[x])
  }

  lemma AssignComputes(b: Tape, c: Tape, x: Id, g: Id, z: Id)
    requires TapeOk(b) && g < |b.p| && Replaces(b, x, g) && c.p == b.p && c.grads == b.grads[x := g]
    ensures Computes(c, z) <==> Computes(b, z) || (z < |b.p| && b.p[z].op != NoOp && Ancestor(b.p, g, z))
  {
    if Computes(b, z) {
      var y :| y in b.grads && Ancestor(b.p, b.grads[y], z);
      if y == x {
        AncestorStep(b.p, g, b.grads[x], z);
        assert x in c.grads && Ancestor(c.p, c.grads[x], z);
      } else {
        assert y in c.grads && Ancestor(c.p, c.grads[y], z);
      }
    }
    if Computes(c, z) {
      var y :| y in c.grads && Ancestor(c.p, c.grads[y], z);
      if y != x { assert y in b.grads && Ancestor(b.p, b.grads[y], z); }
    }
    if z < |b.p| && b.p[z].op != NoOp && Ancestor(b.p, g, z) {
      assert x in c.grads && Ancestor(c.p, c.grads[x], z);
    }
  }

  lemma AssignFlagged(start: set<Id>, o: Order, b: Tape, x: Id, g: Id)
    requires Flagged(start, b) && TapeOk(b) && x < |b.p| && g < |b.p| && Replaces(b, x, g)
    ensures Flagged(start, Assign(o, b, x, g))
  {
    var c := Assign(o, b, x, g);
    VisitFlagsAncestors(b.p, o, b.s, g);
    forall z ensures z in c.s.flags <==> z in start || Computes(c, z) {
      ExpandFlagsExactly(b.p, o, b.s, g, z);
      AssignComputes(b, c, x, g, z);
    }
    VisitClosesFlags(b.p, o, b.s, g, {});
  }

  lemma CombineFlagged(start: set<Id>, o: Order, b: Tape, x: Id, g: Id, op: Op)
    requires Flagged(start, b) && TapeOk(b) && x in b.grads && g < |b.p| && op != NoOp
    ensures Flagged(start, Combine(o, b, x, g, op))
  {
    var t := Binary(op, b.grads[x], g, b.p[b.grads[x]].ne);
    EmitFlagged(start, b, t);
    EmitOk(b, t);
    assert t.src[0] == Some(b.grads[x]);
    AssignFlagged(start, o, Emit(b, t), x, |b.p|);
  }

  lemma StartFlagged(start: set<Id>, o: Order, b: Tape, x: Id, t: Tensor)
    requires Flagged(start, b) && TapeOk(b) && x < |b.p| && x !in b.grads && Names(t, |b.p|)
    ensures TapeOk(Emit(b, t)) && Flagged(start, Assign(o, Emit(b, t), x, |b.p|))
  {
    EmitFlagged(start, b, t);
    EmitOk(b, t);
    AssignFlagged(start, o, Emit(b, t), x, |b.p|);
  }

  lemma AccumulateFlagged(start: set<Id>, o: Order, b: Tape, how: How, x: Id, h: Id)
    requires Flagged(start, b) && TapeOk(b) && x < |b.p| && h < |b.p|
    ensures Flagged(start, Accumulate(o, b, how, x, h))
  {
    hide Flagged;
    if x in b.grads {
      CombineFlagged(start, o, b, x, h, if how == AddTo then Add else if how == SubFrom then Sub else Add1);
    } else if how == AddTo {
      AssignFlagged(start, o, b, x, h);
    } else {
      StartFlagged(start, o, b, x, if how == SubFrom then Unary(Neg, h, b.p[h].ne) else Unary(Repeat, h, b.p[x].ne));
    }
  }

  lemma EmitAllFlagged(start: set<Id>, b: Tape, plan: Plan)
    requires Flagged(start, b) && TapeOk(b) && PlanOk(plan, |b.p|)
    ensures Flagged(start, EmitAll(b, plan))
  {
    hide Flagged;
    if |plan.emit| > 0 {
      EmitFlagged(start, b, plan.emit[0]);
      EmitOk(b, plan.emit[0]);
      if |plan.emit| > 1 { EmitFlagged(start, Emit(b, plan.emit[0]), plan.emit[1]); }
    }
  }

  lemma ServeFlagged(start: set<Id>, o: Order, b: Tape, plan: Plan, x: Id, g: Id)
    requires Flagged(start, b) && TapeOk(b) && x < |b.p| && g < |b.p| && PlanOk(plan, |b.p|)
    ensures Flagged(start, Serve(o, b, plan, x, g))
  {
    hide Flagged, Accumulate;
    EmitAllFlagged(start, b, plan);
    AccumulateFlagged(start, o, EmitAll(b, plan), plan.how, x, Handed(|b.p|, plan, g));
  }

  lemma FirstFlagged(start: set<Id>, o: Order, b: Tape, n: Id, g: Id)
    requires Flagged(start, b) && TapeOk(b) && n < |b.p| && g < |b.p| && HasRule(b.p[n].op)
    requires First(b.p[n]) < n && Second(b.p[n]) < n
    ensures Flagged(start, BackFirst(o, b, n, g))
  {
    hide Flagged, Serve, FirstPlan;
    var t := b.p[n];
    FirstPlanOk(t, n, g, |b.p|, b.p[g].ne, b.p[First(t)].ne);
    ServeFlagged(start, o, b, FirstPlan(t, n, g, |b.p|, b.p[g].ne, b.p[First(t)].ne), First(t), g);
  }

  lemma SecondFlagged(start: set<Id>, o: Order, b: Tape, n: Id, g: Id)
    requires Flagged(start, b) && TapeOk(b) && n < |b.p| && g < |b.p| && First(b.p[n]) < n && Second(b.p[n]) < n
    requires IsBinary(b.p[n].op) || b.p[n].op == Add1
    ensures Flagged(start, BackSecond(o, b, n, g))
  {
    hide Flagged, Serve, SecondPlan;
    var t := b.p[n];
    SecondPlanOk(t, n, g, |b.p|, b.p[g].ne, b.p[First(t)].ne, b.p[Second(t)].ne);
    ServeFlagged(start, o, b, SecondPlan(t, n, g, |b.p|, b.p[g].ne, b.p[First(t)].ne, b.p[Second(t)].ne), Second(t), g);
  }

  lemma ComputeFlagged(start: set<Id>, o: Order, b: Tape, n: Id, needed: set<Id>)
    requires Flagged(start, b) && TapeOk(b) && n < |b.p| && (n in b.grads ==> Shaped(b.p, n))
    ensures Flagged(start, ComputeBackward(o, b, n, needed))
  {
    hide Flagged, BackFirst, BackSecond;
    if n in b.grads && b.p[n].op != NoOp {
      var t, g := b.p[n], b.grads[n];
      if First(t) in needed { FirstFlagged(start, o, b, n, g); }
      var c := if First(t) in needed then BackFirst(o, b, n, g) else b;
      if (IsBinary(t.op) || t.op == Add1) && Second(t) in needed { SecondFlagged(start, o, c, n, g); }
    }
  }

  // ---- the whole builder ------------------------------------------------------------------------------

  lemma {:induction false} LoopFlagged(start: set<Id>, o: Order, b: Tape, list: seq<Id>, k: nat, needed: set<Id>)
    requires Flagged(start, b) && LoopOk(b, list, needed) && k <= |list|
    ensures Flagged(start, BackwardLoop(o, b, list, k, needed))
    decreases k
  {
    hide Flagged, ComputeBackward;
    if k > 0 {
      ComputeFlagged(start, o, b, list[k - 1], needed);
      LoopUnfold(o, b, list, k, needed);
      LoopFlagged(start, o, ComputeBackward(o, b, list[k - 1], needed), list, k - 1, needed);
    }
  }

  // An accumulator is no operation and has no operands.
  ghost predicate OnlyAccumulators(b: Tape) {
    forall y :: y in b.grads ==> b.grads[y] < |b.p| && b.p[b.grads[y]].op == NoOp
  }

  lemma {:induction false} SeedsOnlyAccumulators(b: Tape, list: seq<Id>, k: nat)
    requires TapeOk(b) && OnlyAccumulators(b) && k <= |list| && InPool(b.p, list)
    ensures OnlyAccumulators(SeedLosses(b, list, k))
  {
    if k > 0 { SeedsOnlyAccumulators(b, list, k - 1); }
  }

  lemma AccumulatorComputesNothing(b: Tape, x: Id)
    requires TapeOk(b) && OnlyAccumulators(b)
    ensures !Computes(b, x)
  {
    if Computes(b, x) {
      var y :| y in b.grads && Ancestor(b.p, b.grads[y], x);
      var path :| Path(b.p, path) && path[0] == b.grads[y] && path[|path| - 1] == x;
      LongPath(b.p, path);
      assert false;
    }
  }

  lemma {:induction false} SeedsKeepFlags(b: Tape, list: seq<Id>, k: nat)
    requires TapeOk(b) && k <= |list| && InPool(b.p, list) && FlagsValid(Config(b.p, b.s))
    ensures FlagsValid(Config(SeedLosses(b, list, k).p, b.s))
  {
    if k > 0 {
      SeedsKeepFlags(b, list, k - 1);
      var c := SeedLosses(b, list, k - 1);
      var t := Tensor(NoOp, [], c.p[list[k - 1]].ne);
      assert forall n: Id, y: Id :: n < |c.p| ==> (IsSource(c.p + [t], n, y) <==> IsSource(c.p, n, y));
    }
  }

  // From closed flags, building the gradients flags exactly the gradients and what they are
  // computed from, as far as these are operations.
  lemma GradientsFlagged(o: Order, p: Pool, s: State)
    requires FlagsValid(Config(p, s)) && Served(p, s.nodes)
    ensures Flagged(s.flags, BuildBackward(o, p, s))
  {
    hide BackwardLoop;
    var start := Tape(p, s, map[], map[]);
    SeedsOnlyAccumulators(start, s.nodes, |s.nodes|);
    SeedsKeepFlags(start, s.nodes, |s.nodes|);
    var b := Seeded(p, s);
    forall x ensures !Computes(b, x) { AccumulatorComputesNothing(b, x); }
    LoopFlagged(s.flags, o, b, s.nodes, |s.nodes|, Needed(p, s.nodes, |s.nodes|));
  }

  // So every gradient that is an operation will be computed.
  lemma GradientComputed(o: Order, p: Pool, s: State, y: Id)
    requires FlagsValid(Config(p, s)) && Served(p, s.nodes)
    ensures var b := BuildBackward(o, p, s); y in b.grads && b.grads[y] < |b.p| && b.p[b.grads[y]].op != NoOp ==> b.grads[y] in b.s.flags
  {
    GradientsFlagged(o, p, s);
    var b := BuildBackward(o, p, s);
    if y in b.grads && b.grads[y] < |b.p| { AncestorSelf(b.p, b.grads[y]); }
  }
}
