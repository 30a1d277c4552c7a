// Reverse-mode differentiation is exact, and it keeps the graph well built.
module GradientTheorem {
  import opened Options
  import opened Tensors
  import opened Values
  import opened GraphBuild
  import opened GraphFacts
  import opened GraphRuns
  import opened Backward
  import opened BackwardFacts
  import opened BackwardOps
  import opened BackwardShapes
  import opened BackwardRun
  import opened Gradient

  // The graphs whose gradients the modelled cases compute.
  ghost predicate Differentiable(p: Pool, s: State) {
    && GraphInv(p, s) && AllShaped(p, s.nodes)
    && (forall k :: 0 <= k < |s.nodes| ==> NodeOk(p, s.nodes, s.nodes[k]))
  }

  // Losses are scalars that nothing consumes; parameters have no operation; a second operand
  // that needs a gradient has the shape the gradient code asserts.
  ghost predicate NodeOk(p: Pool, nodes: seq<Id>, n: Id) {
    && n < |p| && InPool(p, nodes)
    && (p[n].param ==> p[n].op == NoOp)
    && (p[n].loss ==> p[n].ne == 1 && forall j :: 0 <= j < |nodes| ==> !IsSource(p, nodes[j], n))
    && ((IsBinary(p[n].op) || p[n].op == Add1) && Second(p[n]) < |p| ==>
          Second(p[n]) !in Needed(p, nodes, |nodes|) || SecondServed(p[n], p[Second(p[n])].ne))
  }

  // The sum of all losses, or of their tangents.
  function LossSum(p: Pool, nodes: seq<Id>, val: seq<Vec>, k: nat): real
    requires k <= |nodes|
  {
    if k == 0 then 0.0 else
      LossSum(p, nodes, val, k - 1)
      + if nodes[k - 1] < |p| && nodes[k - 1] < |val| && p[nodes[k - 1]].loss then At(val[nodes[k - 1]], 0) else 0.0
  }

  // Gradient times tangent, summed over the parameters.
  ghost function ParameterTangent(p: Pool, nodes: seq<Id>, grads: map<Id, Id>, val: seq<Vec>, tan: seq<Vec>, k: nat): real
    requires k <= |nodes|
  {
    if k == 0 then 0.0 else
      ParameterTangent(p, nodes, grads, val, tan, k - 1)
      + if nodes[k - 1] < |p| && p[nodes[k - 1]].param then GradientDot(p, grads, val, tan, nodes[k - 1]) else 0.0
  }

  ghost function GradientDot(p: Pool, grads: map<Id, Id>, val: seq<Vec>, tan: seq<Vec>, n: Id): real
    requires n < |p|
  {
    if n in grads && grads[n] < |val| && n < |tan| then Dot(val[grads[n]], tan[n], p[n].ne) else 0.0
  }

  // Values of the whole gradient pool with every loss seeded by one, and tangents of the
  // forward graph with constants at rest.
  ghost predicate Evaluated(e: Elementary, p: Pool, s: State, b: Tape, val: seq<Vec>, tan: seq<Vec>) {
    && p <= b.p && Evaluates(e, b.p, val) && Sized(p, val) && Sized(p, tan)
    && (forall l :: l in b.accs ==> b.accs[l] < |val| && val[b.accs[l]] == [1.0])
    && (forall k :: 0 <= k < |s.nodes| && s.nodes[k] < |p| ==> TangentComputed(e, p, val, tan, s.nodes[k]))
    && (forall x :: x in s.leafs && x < |tan| ==> forall i :: At(tan[x], i) == 0.0)
  }

  // ---- seeds ------------------------------------------------------------------------------------------

  ghost predicate SeededUpTo(p: Pool, nodes: seq<Id>, c: Tape, k: nat)
    requires k <= |nodes| && InPool(p, nodes)
  {
    && TapeOk(c) && p <= c.p && c.grads == c.accs
    && (forall j :: 0 <= j < k && p[nodes[j]].loss ==> nodes[j] in c.grads)
    && (forall x :: x in c.grads ==> exists j :: 0 <= j < k && nodes[j] == x && p[x].loss)
    && (forall x :: x in c.grads ==> x < |p| && c.p[c.grads[x]].ne == p[x].ne)
  }

  lemma {:induction false} SeedsPlaced(p: Pool, s: State, nodes: seq<Id>, k: nat)
    requires WellFormed(p) && k <= |nodes| && InPool(p, nodes) && NoDup(nodes)
    ensures SeededUpTo(p, nodes, SeedLosses(Tape(p, s, map[], map[]), nodes, k), k)
  {
    if k > 0 {
      SeedsPlaced(p, s, nodes, k - 1);
      var c := SeedLosses(Tape(p, s, map[], map[]), nodes, k - 1);
      SeedStep(p, nodes, c, SeedLosses(Tape(p, s, map[], map[]), nodes, k), k);
    }
  }

  lemma SeedStep(p: Pool, nodes: seq<Id>, c: Tape, d: Tape, k: nat)
    requires 0 < k <= |nodes| && InPool(p, nodes) && SeededUpTo(p, nodes, c, k - 1) && TapeOk(d)
    requires d == if c.p[nodes[k - 1]].loss
                  then Tape(c.p + [Tensor(NoOp, [], c.p[nodes[k - 1]].ne)], c.s, c.grads[nodes[k - 1] := |c.p|], c.accs[nodes[k - 1] := |c.p|])
                  else c
    ensures SeededUpTo(p, nodes, d, k)
  {
    assert c.p[nodes[k - 1]] == p[nodes[k - 1]];
    forall x | x in d.grads ensures exists j :: 0 <= j < k && nodes[j] == x && p[x].loss {
      if x != nodes[k - 1] || !p[nodes[k - 1]].loss {
        var j :| 0 <= j < k - 1 && nodes[j] == x && p[x].loss;
      }
    }
  }

  // Before the loop the sum is the tangent of the losses.
  lemma {:induction false} SeedSum(v: Env, c: Tape, k: nat)
    requires EnvOk(v) && k <= |v.nodes| && InPool(v.p, v.nodes) && SeededUpTo(v.p, v.nodes, c, |v.nodes|)
    requires forall l :: l in c.accs ==> c.accs[l] < |v.val| && v.val[c.accs[l]] == [1.0]
    requires forall j :: 0 <= j < |v.nodes| && v.p[v.nodes[j]].loss ==> v.p[v.nodes[j]].ne == 1
    ensures GradSum(v, c.grads, |v.nodes|, k) == LossSum(v.p, v.nodes, v.tan, k)
  {
    if k > 0 {
      SeedSum(v, c, k - 1);
      var n := v.nodes[k - 1];
      if n in c.grads {
        DotOne([1.0], v.tan[n]);
      }
    }
  }

  // After the loop only the parameters are left.
  lemma {:induction false} ParametersLeft(v: Env, s: State, grads: map<Id, Id>, k: nat)
    requires EnvOk(v) && v.nodes == s.nodes && k <= |v.nodes| && InPool(v.p, v.nodes)
    requires forall j :: 0 <= j < |v.nodes| ==> (v.p[v.nodes[j]].op == NoOp <==> v.p[v.nodes[j]].param)
    ensures GradSum(v, grads, 0, k) == ParameterTangent(v.p, v.nodes, grads, v.val, v.tan, k)
  {
    if k > 0 { ParametersLeft(v, s, grads, k - 1); }
  }

  // ---- the loop is ready ----------------------------------------------------------------------------------

  lemma OperandReady(v: Env, s: State, i: nat, x: Id, slot: nat)
    requires EnvOk(v) && v.nodes == s.nodes && GraphInv(v.p, s) && InPool(v.p, v.nodes)
    requires i < |v.nodes| && slot < |v.p[v.nodes[i]].src| && v.p[v.nodes[i]].src[slot] == Some(x) && x < v.nodes[i]
    requires LeafsStill(v, s) && StillBefore(v, Needed(v.p, v.nodes, |v.nodes|), |v.nodes|)
    ensures OperandOk(v, Needed(v.p, v.nodes, |v.nodes|), i, x)
  {
    assert IsSource(v.p, v.nodes[i], x);
    assert x in s.leafs || x in s.nodes[..i];
    NeededNodes(v.p, v.nodes, |v.nodes|);
    if x in s.leafs {
      assert x !in s.nodes;
      assert v.nodes[..|v.nodes|] == v.nodes;
    } else {
      var j :| 0 <= j < |s.nodes[..i]| && s.nodes[..i][j] == x;
      assert v.nodes[j] == x;
    }
  }

  lemma NodeReady(v: Env, s: State, i: nat)
    requires EnvOk(v) && v.nodes == s.nodes && Differentiable(v.p, s) && InPool(v.p, v.nodes) && i < |v.nodes|
    requires LeafsStill(v, s) && StillBefore(v, Needed(v.p, v.nodes, |v.nodes|), |v.nodes|)
    ensures StepReady(v, Needed(v.p, v.nodes, |v.nodes|), i)
  {
    var n := v.nodes[i];
    var t := v.p[n];
    assert NodeOk(v.p, s.nodes, s.nodes[i]);
    assert Shaped(v.p, s.nodes[i]);
    if t.op != NoOp {
      OperandReady(v, s, i, First(t), 0);
      OperandReady(v, s, i, Second(t), if IsBinary(t.op) || t.op == Add1 then 1 else 0);
    }
  }

  // ---- the theorem --------------------------------------------------------------------------------------------

  lemma TheoremEnv(e: Elementary, p: Pool, s: State, b: Tape, val: seq<Vec>, tan: seq<Vec>) returns (v: Env)
    requires Differentiable(p, s) && Evaluated(e, p, s, b, val, tan)
    ensures v == Env(e, p, s.nodes, b.p, val, tan)
    ensures EnvOk(v) && EnvTangents(v) && InPool(p, s.nodes) && LeafsStill(v, s) && NoDup(s.nodes)
  {
    v := Env(e, p, s.nodes, b.p, val, tan);
  }

  lemma StepsReady(v: Env, s: State)
    requires EnvOk(v) && EnvTangents(v) && v.nodes == s.nodes && Differentiable(v.p, s) && InPool(v.p, s.nodes) && LeafsStill(v, s)
    ensures LoopReady(v, Needed(v.p, s.nodes, |s.nodes|))
  {
    hide StepReady;
    var needed := Needed(v.p, s.nodes, |s.nodes|);
    PrunedStill(v, s, |s.nodes|);
    forall i | 0 <= i < |v.nodes| ensures StepReady(v, needed, i) {
      NodeReady(v, s, i);
    }
  }

  lemma LoopStarts(v: Env, o: Order, s: State, b: Tape)
    requires EnvOk(v) && EnvTangents(v) && v.nodes == s.nodes && Differentiable(v.p, s) && InPool(v.p, s.nodes) && LeafsStill(v, s)
    requires b == BuildBackward(o, v.p, s) && b.p == v.pf
    ensures LoopAt(v, Seeded(v.p, s), Needed(v.p, s.nodes, |s.nodes|))
  {
    hide BackwardLoop, ComputeBackward, NodeOk, SeedLosses, LoopReady;
    StepsReady(v, s);
    SeedsPlaced(v.p, s, s.nodes, |s.nodes|);
    AllShapedStable(v.p, Seeded(v.p, s).p, s.nodes);
    PrefixLimit(Seeded(v.p, s), b, v.pf);
  }

  // For every differentiable graph, every assignment of values that agrees with the gradient
  // graph and every direction in which the parameters move, the tangent of the losses is the
  // sum over the parameters of gradient times tangent.
  lemma GradientIsExact(o: Order, e: Elementary, p: Pool, s: State, val: seq<Vec>, tan: seq<Vec>)
    requires Differentiable(p, s)
    requires Evaluated(e, p, s, BuildBackward(o, p, s), val, tan)
    ensures LossSum(p, s.nodes, tan, |s.nodes|)
         == ParameterTangent(p, s.nodes, BuildBackward(o, p, s).grads, val, tan, |s.nodes|)
  {
    hide BackwardLoop, TapeOk, ComputeBackward;
    var b := BuildBackward(o, p, s);
    var v := TheoremEnv(e, p, s, b, val, tan);
    var needed, c := Needed(p, s.nodes, |s.nodes|), Seeded(p, s);
    LoopStarts(v, o, s, b);
    LoopKeepsSum(v, o, c, b, needed, |s.nodes|);
    SeedsPlaced(p, s, s.nodes, |s.nodes|);
    assert b.accs == c.accs;
    forall j | 0 <= j < |v.nodes|
      ensures v.p[v.nodes[j]].loss ==> v.p[v.nodes[j]].ne == 1
      ensures v.p[v.nodes[j]].op == NoOp <==> v.p[v.nodes[j]].param
    {
      assert NodeOk(p, s.nodes, s.nodes[j]);
      assert s.nodes[j] in s.nodes;
    }
    SeedSum(v, c, |s.nodes|);
    ParametersLeft(v, s, b.grads, |s.nodes|);
  }
}
