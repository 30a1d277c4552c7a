// The gradient of every parameter, for any differentiable graph.
module Gradient {
  import opened Options
  import opened Tensors
  import opened Values
  import opened GraphBuild
  import opened GraphRuns
  import opened Backward
  import opened BackwardFacts
  import opened BackwardOps
  import opened BackwardShapes
  import opened BackwardRun

  // ---- one step of the reverse loop ---------------------------------------------------------------

  ghost predicate StepReady(v: Env, needed: set<Id>, i: nat) {
    && i < |v.nodes| && v.nodes[i] < |v.p|
    && (v.p[v.nodes[i]].op != NoOp ==>
          && OperandOk(v, needed, i, First(v.p[v.nodes[i]]))
          && OperandOk(v, needed, i, Second(v.p[v.nodes[i]]))
          && (IsBinary(v.p[v.nodes[i]].op) || v.p[v.nodes[i]].op == Add1 ==>
                Second(v.p[v.nodes[i]]) !in needed || SecondServed(v.p[v.nodes[i]], v.p[Second(v.p[v.nodes[i]])].ne)))
  }

  lemma BothServed(v: Env, o: Order, b: Tape, needed: set<Id>, i: nat, g: Id)
    requires AtStep(v, b, needed, i, g) && StepReady(v, needed, i)
    requires TapeOk(b) && v.nodes[i] < |b.p| && Shaped(b.p, v.nodes[i]) && v.nodes[i] in b.grads && b.grads[v.nodes[i]] == g
    requires ComputeBackward(o, b, v.nodes[i], needed).p <= v.pf
    ensures TapeSound(v, ComputeBackward(o, b, v.nodes[i], needed))
    ensures g < |v.val|
    ensures GradSum(v, ComputeBackward(o, b, v.nodes[i], needed).grads, i, |v.nodes|)
         == GradSum(v, b.grads, i, |v.nodes|) + Dot(v.val[g], v.tan[v.nodes[i]], v.p[v.nodes[i]].ne)
  {
    StepSizes(v, b, needed, i, g);
    NothingOwed(v, b, needed, i, g);
    var n, t := v.nodes[i], v.p[v.nodes[i]];
    var c := if First(t) in needed then BackFirst(o, b, n, g) else b;
    if IsBinary(t.op) || t.op == Add1 {
      PartsSum(v, b, needed, i, g);
      if Second(t) in needed {
        PrefixLimit(c, BackSecond(o, c, n, g), v.pf);
      }
      if First(t) in needed { FirstServed(v, o, b, needed, i, g); }
      if Second(t) in needed {
        assert c.p[g] == b.p[g] && c.p[n] == b.p[n];
        SecondServedSum(v, o, c, needed, i, g);
      }
    } else if First(t) in needed {
      FirstServed(v, o, b, needed, i, g);
    }
  }

  // The loop invariant: processing node i leaves the sum unchanged.
  lemma StepKeepsSum(v: Env, o: Order, b: Tape, needed: set<Id>, i: nat)
    requires EnvOk(v) && EnvTangents(v) && TapeSound(v, b) && StepReady(v, needed, i)
    requires v.nodes[i] < |b.p| && Shaped(b.p, v.nodes[i])
    requires ComputeBackward(o, b, v.nodes[i], needed).p <= v.pf
    ensures TapeSound(v, ComputeBackward(o, b, v.nodes[i], needed))
    ensures GradSum(v, ComputeBackward(o, b, v.nodes[i], needed).grads, i, |v.nodes|)
         == GradSum(v, b.grads, i + 1, |v.nodes|)
  {
    GradSumDrop(v, b.grads, i, |v.nodes|);
    var n := v.nodes[i];
    if n in b.grads {
      ValueSize(v, b, b.grads[n]);
      if v.p[n].op != NoOp {
        BothServed(v, o, b, needed, i, b.grads[n]);
      }
    }
  }

  ghost predicate LoopReady(v: Env, needed: set<Id>) {
    forall i :: 0 <= i < |v.nodes| ==> StepReady(v, needed, i)
  }

  // What holds before each round of the reverse loop.
  ghost predicate LoopAt(v: Env, b: Tape, needed: set<Id>) {
    EnvOk(v) && EnvTangents(v) && TapeSound(v, b) && LoopReady(v, needed) && AllShaped(b.p, v.nodes) && b.grads.Keys <= needed
  }

  lemma LoopStep(v: Env, o: Order, b: Tape, c: Tape, needed: set<Id>, i: nat)
    requires LoopAt(v, b, needed) && i < |v.nodes|
    requires c == ComputeBackward(o, b, v.nodes[i], needed) && c.p <= v.pf
    ensures LoopAt(v, c, needed)
    ensures GradSum(v, c.grads, i, |v.nodes|) == GradSum(v, b.grads, i + 1, |v.nodes|)
  {
    hide ComputeBackward;
    assert StepReady(v, needed, i);
    AllShapedStable(b.p, c.p, v.nodes);
    ComputeKeys(o, b, v.nodes[i], needed);
    StepKeepsSum(v, o, b, needed, i);
  }

  // d is where the loop ends when it still has k nodes to process from b.
  lemma {:induction false} LoopKeepsSum(v: Env, o: Order, b: Tape, d: Tape, needed: set<Id>, k: nat)
    requires LoopAt(v, b, needed) && k <= |v.nodes|
    requires d == BackwardLoop(o, b, v.nodes, k, needed) && d.p <= v.pf
    ensures TapeSound(v, d)
    ensures GradSum(v, d.grads, 0, |v.nodes|) == GradSum(v, b.grads, k, |v.nodes|)
    decreases k
  {
    hide TapeOk, LoopReady, AllShaped, Extends, TapeSound;
    if k > 0 {
      var j := k - 1;
      var c := LoopRound(v, o, b, d, needed, k);
      LoopKeepsSum(v, o, c, d, needed, j);
    }
  }

  lemma LoopRound(v: Env, o: Order, b: Tape, d: Tape, needed: set<Id>, k: nat) returns (c: Tape)
    requires LoopAt(v, b, needed) && 0 < k <= |v.nodes|
    requires d == BackwardLoop(o, b, v.nodes, k, needed) && d.p <= v.pf
    ensures LoopAt(v, c, needed) && d == BackwardLoop(o, c, v.nodes, k - 1, needed)
    ensures GradSum(v, c.grads, k - 1, |v.nodes|) == GradSum(v, b.grads, k, |v.nodes|)
  {
    hide ComputeBackward, LoopReady, BackwardLoop, GradSum, EnvTangents;
    c := ComputeBackward(o, b, v.nodes[k - 1], needed);
    LoopUnfold(o, b, v.nodes, k, needed);
    PrefixLimit(c, d, v.pf);
    LoopStep(v, o, b, c, needed, k - 1);
  }

  // ---- which nodes need gradients --------------------------------------------------------------------

  lemma {:induction false} NeededNodes(p: Pool, nodes: seq<Id>, k: nat)
    requires k <= |nodes| && InPool(p, nodes)
    ensures forall x :: x in Needed(p, nodes, k) ==> x in nodes[..k]
  {
    if k > 0 {
      NeededNodes(p, nodes, k - 1);
      assert nodes[..k] == nodes[..k - 1] + [nodes[k - 1]];
    }
  }

  ghost predicate LeafsStill(v: Env, s: State) {
    forall x :: x in s.leafs && x < |v.tan| ==> Still(v, x)
  }

  ghost predicate StillBefore(v: Env, needed: set<Id>, k: nat)
    requires k <= |v.nodes|
  {
    forall j :: 0 <= j < k && v.nodes[j] !in needed ==> v.nodes[j] < |v.tan| && Still(v, v.nodes[j])
  }

  // Whatever is not needed among the first k nodes has a zero tangent.
  lemma {:induction false} PrunedStill(v: Env, s: State, k: nat)
    requires EnvOk(v) && EnvTangents(v) && v.nodes == s.nodes && GraphInv(v.p, s)
    requires InPool(v.p, v.nodes) && k <= |v.nodes| && LeafsStill(v, s)
    ensures StillBefore(v, Needed(v.p, v.nodes, k), k)
  {
    if k > 0 {
      var j := k - 1;
      PrunedStill(v, s, j);
      PrunedStep(v, s, j);
    }
  }

  lemma NeededNext(p: Pool, nodes: seq<Id>, k: nat)
    requires k < |nodes| && InPool(p, nodes)
    ensures Needed(p, nodes, k) <= Needed(p, nodes, k + 1)
    ensures nodes[k] !in Needed(p, nodes, k + 1) ==> !AnyNeeded(p[nodes[k]], Needed(p, nodes, k))
  {
  }

  lemma StillNext(v: Env, needed: set<Id>, more: set<Id>, k: nat)
    requires k < |v.nodes| && StillBefore(v, needed, k) && needed <= more
    requires v.nodes[k] !in more ==> v.nodes[k] < |v.tan| && Still(v, v.nodes[k])
    ensures StillBefore(v, more, k + 1)
  {
  }

  lemma PrunedStep(v: Env, s: State, k: nat)
    requires EnvOk(v) && EnvTangents(v) && v.nodes == s.nodes && GraphInv(v.p, s)
    requires InPool(v.p, v.nodes) && k < |v.nodes| && LeafsStill(v, s)
    requires StillBefore(v, Needed(v.p, v.nodes, k), k)
    ensures StillBefore(v, Needed(v.p, v.nodes, k + 1), k + 1)
  {
    NeededNext(v.p, v.nodes, k);
    var n, needed := v.nodes[k], Needed(v.p, v.nodes, k);
    if n !in Needed(v.p, v.nodes, k + 1) {
      assert n in s.nodes;
      assert !IsLeaf(v.p[n]);
      UnneededStill(v, s, k, needed);
    }
    StillNext(v, needed, Needed(v.p, v.nodes, k + 1), k);
  }

  lemma UnneededStill(v: Env, s: State, i: nat, needed: set<Id>)
    requires EnvOk(v) && EnvTangents(v) && v.nodes == s.nodes && GraphInv(v.p, s)
    requires i < |v.nodes| && v.nodes[i] < |v.p| && v.p[v.nodes[i]].op != NoOp
    requires !AnyNeeded(v.p[v.nodes[i]], needed) && LeafsStill(v, s) && StillBefore(v, needed, i)
    ensures v.nodes[i] < |v.tan| && Still(v, v.nodes[i])
  {
    var n := v.nodes[i];
    var t := v.p[n];
    var x, y := First(t), Second(t);
    assert Shaped(v.p, n) && TangentComputed(v.e, v.p, v.val, v.tan, n);
    OperandStill(v, s, i, needed, x, 0);
    OperandStill(v, s, i, needed, y, if IsBinary(t.op) || t.op == Add1 then 1 else 0);
    forall j ensures At(v.tan[n], j) == 0.0 {
      if 0 <= j < t.ne { ZeroTangent(v, n, j); }
    }
  }

  lemma ZeroTangent(v: Env, n: Id, j: nat)
    requires EnvOk(v) && n < |v.p| && Shaped(v.p, n) && TangentComputed(v.e, v.p, v.val, v.tan, n)
    requires v.p[n].op != NoOp && j < v.p[n].ne
    requires Still(v, First(v.p[n])) && Still(v, Second(v.p[n]))
    ensures At(v.tan[n], j) == 0.0
  {
    var t, x, y := v.p[n], First(v.p[n]), Second(v.p[n]);
    FirstPartZero(v.e, t, v.val[n], v.val[x], v.val[y], v.tan[x], j);
    SecondPartZero(t, v.val[n], v.val[x], v.val[y], v.tan[y], j);
    if IsBinary(t.op) || t.op == Add1 {
      TangentSplits(v.e, t, v.val[n], v.val[x], v.val[y], v.tan[x], v.tan[y], j);
    }
  }

  lemma OperandStill(v: Env, s: State, i: nat, needed: set<Id>, x: Id, slot: nat)
    requires EnvOk(v) && v.nodes == s.nodes && GraphInv(v.p, s)
    requires i < |v.nodes| && v.nodes[i] < |v.p| && slot < |v.p[v.nodes[i]].src| && v.p[v.nodes[i]].src[slot] == Some(x)
    requires x < v.nodes[i] && !AnyNeeded(v.p[v.nodes[i]], needed)
    requires LeafsStill(v, s) && StillBefore(v, needed, i)
    ensures Still(v, x)
  {
    assert IsSource(v.p, v.nodes[i], x);
    assert x in s.leafs || x in s.nodes[..i];
    if x !in s.leafs {
      var j :| 0 <= j < |s.nodes[..i]| && s.nodes[..i][j] == x;
      assert v.nodes[j] == x;
    }
  }
}
