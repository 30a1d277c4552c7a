// The reverse loop: gradient times tangent, summed over the nodes still to be processed
// and the parameters, never changes.
module BackwardRun {
  import opened Tensors
  import opened Values
  import opened GraphBuild
  import opened GraphFacts
  import opened Backward
  import opened BackwardFacts
  import opened BackwardOps
  import opened BackwardShapes

  // Gradient times tangent at one node; no gradient counts as zero.
  ghost function Term(v: Env, grads: map<Id, Id>, n: Id): real {
    if n in grads && grads[n] < |v.val| && n < |v.tan| && n < |v.p|
    then Dot(v.val[grads[n]], v.tan[n], v.p[n].ne) else 0.0
  }

  // Node k still counts before the loop reaches it, and for ever if it has no operation.
  ghost predicate Counts(v: Env, i: nat, k: nat)
    requires k < |v.nodes|
  {
    k < i || (v.nodes[k] < |v.p| && v.p[v.nodes[k]].op == NoOp)
  }

  // The sum over the first k forward nodes when the nodes from i on were processed.
  ghost function GradSum(v: Env, grads: map<Id, Id>, i: nat, k: nat): real
    requires k <= |v.nodes|
  {
    if k == 0 then 0.0
    else GradSum(v, grads, i, k - 1) + if Counts(v, i, k - 1) then Term(v, grads, v.nodes[k - 1]) else 0.0
  }

  // ---- changing one gradient -------------------------------------------------------------------

  lemma {:induction false} GradSumSame(v: Env, g: map<Id, Id>, h: map<Id, Id>, i: nat, k: nat)
    requires k <= |v.nodes|
    requires forall j :: 0 <= j < k ==> Term(v, g, v.nodes[j]) == Term(v, h, v.nodes[j])
    ensures GradSum(v, g, i, k) == GradSum(v, h, i, k)
  {
    if k > 0 { GradSumSame(v, g, h, i, k - 1); }
  }

  lemma {:induction false} GradSumChange(v: Env, g: map<Id, Id>, h: map<Id, Id>, i: nat, k: nat, at: nat)
    requires at < k <= |v.nodes| && NoDup(v.nodes) && Counts(v, i, at)
    requires forall j :: 0 <= j < |v.nodes| && j != at ==> Term(v, g, v.nodes[j]) == Term(v, h, v.nodes[j])
    ensures GradSum(v, h, i, k) == GradSum(v, g, i, k) + Term(v, h, v.nodes[at]) - Term(v, g, v.nodes[at])
  {
    if at == k - 1 {
      GradSumSame(v, g, h, i, k - 1);
    } else {
      GradSumChange(v, g, h, i, k - 1, at);
    }
  }

  lemma {:induction false} GradSumDrop(v: Env, g: map<Id, Id>, i: nat, k: nat)
    requires k <= |v.nodes| && i < |v.nodes| && v.nodes[i] < |v.p|
    ensures GradSum(v, g, i + 1, k) == GradSum(v, g, i, k)
              + if i < k && v.p[v.nodes[i]].op != NoOp then Term(v, g, v.nodes[i]) else 0.0
  {
    if k > 0 { GradSumDrop(v, g, i, k - 1); }
  }

  lemma {:induction false} DotAdds(u: Vec, w: Vec, d: Vec, t: Vec, n: nat)
    requires forall i :: 0 <= i < n ==> At(u, i) == At(w, i) + At(d, i)
    ensures Dot(u, t, n) == Dot(w, t, n) + Dot(d, t, n)
  {
    if n > 0 { DotAdds(u, w, d, t, n - 1); }
  }

  lemma {:induction false} DotSame(u: Vec, d: Vec, t: Vec, n: nat)
    requires forall i :: 0 <= i < n ==> At(u, i) == At(d, i)
    ensures Dot(u, t, n) == Dot(d, t, n)
  {
    if n > 0 { DotSame(u, d, t, n - 1); }
  }

  lemma AddsTerm(v: Env, b: Tape, c: Tape, x: Id, d: Vec)
    requires EnvOk(v) && TapeSound(v, b) && Adds(v, b, c, x, d)
    ensures Term(v, c.grads, x) == Term(v, b.grads, x) + Dot(d, v.tan[x], v.p[x].ne)
  {
    assert c.grads[x] < |v.val|;
    if x in b.grads {
      assert forall i :: 0 <= i < v.p[x].ne ==>
        At(v.val[c.grads[x]], i) == GradAt(v, c, x, i) && At(v.val[b.grads[x]], i) == GradAt(v, b, x, i);
      DotAdds(v.val[c.grads[x]], v.val[b.grads[x]], d, v.tan[x], v.p[x].ne);
    } else {
      assert forall i :: 0 <= i < v.p[x].ne ==> At(v.val[c.grads[x]], i) == GradAt(v, c, x, i);
      DotSame(v.val[c.grads[x]], d, v.tan[x], v.p[x].ne);
    }
  }

  lemma AddsSum(v: Env, b: Tape, c: Tape, at: nat, d: Vec, i: nat)
    requires EnvOk(v) && TapeSound(v, b) && NoDup(v.nodes) && at < |v.nodes| && Counts(v, i, at)
    requires v.nodes[at] < |v.p| && Adds(v, b, c, v.nodes[at], d)
    ensures GradSum(v, c.grads, i, |v.nodes|) == GradSum(v, b.grads, i, |v.nodes|)
              + Dot(d, v.tan[v.nodes[at]], v.p[v.nodes[at]].ne)
  {
    AddsTerm(v, b, c, v.nodes[at], d);
    forall j | 0 <= j < |v.nodes| && j != at ensures Term(v, b.grads, v.nodes[j]) == Term(v, c.grads, v.nodes[j]) {
      assert v.nodes[j] != v.nodes[at];
    }
    GradSumChange(v, b.grads, c.grads, i, |v.nodes|, at);
  }

  // ---- one node ---------------------------------------------------------------------------------

  // An operand that needs no gradient does not move.
  ghost predicate Still(v: Env, x: Id)
    requires x < |v.tan|
  {
    forall i :: At(v.tan[x], i) == 0.0
  }

  // An operand of node i is either still and not needed, or a needed node before i.
  ghost predicate OperandOk(v: Env, needed: set<Id>, i: nat, x: Id) {
    && x < |v.p| && x < |v.tan|
    && (x !in needed ==> Still(v, x))
    && (x in needed ==> exists j :: 0 <= j < i && j < |v.nodes| && v.nodes[j] == x)
  }

  // Node i of the loop, with gradient g.
  ghost predicate AtStep(v: Env, b: Tape, needed: set<Id>, i: nat, g: Id) {
    && EnvOk(v) && EnvTangents(v) && TapeSound(v, b) && i < |v.nodes|
    && v.p[v.nodes[i]].op != NoOp && g < |b.p| && b.p[g].ne == v.p[v.nodes[i]].ne
    && OperandOk(v, needed, i, First(v.p[v.nodes[i]]))
    && OperandOk(v, needed, i, Second(v.p[v.nodes[i]]))
  }

  lemma StepSizes(v: Env, b: Tape, needed: set<Id>, i: nat, g: Id)
    requires AtStep(v, b, needed, i, g)
    ensures var n, x, y := v.nodes[i], First(v.p[v.nodes[i]]), Second(v.p[v.nodes[i]]);
      && n < |v.p| && x < n && y < n && g < |v.pf| && HasRule(v.p[n].op)
      && Shaped(v.p, n) && TangentComputed(v.e, v.p, v.val, v.tan, n)
      && b.p[n] == v.p[n] == v.pf[n] && b.p[x] == v.p[x] == v.pf[x] && b.p[y] == v.p[y] == v.pf[y]
      && b.p[g] == v.pf[g] && |v.val[x]| > 0 && |v.val[y]| > 0
      && n < |b.p| && |v.tan[n]| == v.p[n].ne
  {
    ValueSize(v, b, g);
  }

  lemma UnaryMoves(v: Env, b: Tape, needed: set<Id>, i: nat, g: Id)
    requires AtStep(v, b, needed, i, g)
    requires !IsBinary(v.p[v.nodes[i]].op) && v.p[v.nodes[i]].op != Add1
    requires var n := v.nodes[i]; Planned(v, FirstPlan(v.p[n], n, g, |b.p|, v.p[n].ne, v.p[First(v.p[n])].ne), |b.p|)
    ensures var n, x := v.nodes[i], First(v.p[v.nodes[i]]);
      var plan := FirstPlan(v.p[n], n, g, |b.p|, v.p[n].ne, v.p[x].ne);
      Handed(|b.p|, plan, g) < |v.val| &&
      Dot(v.val[g], v.tan[n], v.p[n].ne) == Dot(Delivered(v.val[Handed(|b.p|, plan, g)], plan.how, v.p[x].ne), v.tan[x], v.p[x].ne)
  {
    StepSizes(v, b, needed, i, g);
    var n, x := v.nodes[i], First(v.p[v.nodes[i]]);
    assert Second(v.p[n]) == x;
    assert Moves(v, n, x);
    if IsElementwise(v.p[n].op) {
      ElementwiseMoves(v, n, x, g, |b.p|);
    } else {
      ShapingMoves(v, n, x, g, |b.p|);
    }
  }

  ghost function FirstPart(v: Env, n: Id): Vec
    requires n < |v.p| && n < |v.val| && First(v.p[n]) < |v.val| && Second(v.p[n]) < |v.val| && First(v.p[n]) < |v.tan|
    requires |v.val[First(v.p[n])]| > 0 && |v.val[Second(v.p[n])]| > 0
  {
    seq(v.p[n].ne, (i: nat) =>
      FirstPartAt(v.e, v.p[n], v.val[n], v.val[First(v.p[n])], v.val[Second(v.p[n])], v.tan[First(v.p[n])], i))
  }

  ghost function SecondPart(v: Env, n: Id): Vec
    requires n < |v.p| && n < |v.val| && First(v.p[n]) < |v.val| && Second(v.p[n]) < |v.val| && Second(v.p[n]) < |v.tan|
    requires |v.val[First(v.p[n])]| > 0 && |v.val[Second(v.p[n])]| > 0
  {
    seq(v.p[n].ne, (i: nat) =>
      SecondPartAt(v.p[n], v.val[n], v.val[First(v.p[n])], v.val[Second(v.p[n])], v.tan[Second(v.p[n])], i))
  }

  // The node's gradient times tangent is the sum of its two parts.
  lemma PartsSum(v: Env, b: Tape, needed: set<Id>, i: nat, g: Id)
    requires AtStep(v, b, needed, i, g)
    requires IsBinary(v.p[v.nodes[i]].op) || v.p[v.nodes[i]].op == Add1
    requires g < |v.val| && First(v.p[v.nodes[i]]) < |v.val| && Second(v.p[v.nodes[i]]) < |v.val| && v.nodes[i] < |v.val|
    requires |v.val[First(v.p[v.nodes[i]])]| > 0 && |v.val[Second(v.p[v.nodes[i]])]| > 0
    ensures var n := v.nodes[i];
      Dot(v.val[g], v.tan[n], v.p[n].ne) ==
      Dot(v.val[g], FirstPart(v, n), v.p[n].ne) + Dot(v.val[g], SecondPart(v, n), v.p[n].ne)
  {
    StepSizes(v, b, needed, i, g);
    var n, x, y := v.nodes[i], First(v.p[v.nodes[i]]), Second(v.p[v.nodes[i]]);
    forall k | 0 <= k < v.p[n].ne ensures At(v.tan[n], k) == At(FirstPart(v, n), k) + At(SecondPart(v, n), k) {
      TangentSplits(v.e, v.p[n], v.val[n], v.val[x], v.val[y], v.tan[x], v.tan[y], k);
    }
    DotPartsSum(v.val[g], v.tan[n], FirstPart(v, n), SecondPart(v, n), v.p[n].ne);
  }

  lemma {:induction false} DotPartsSum(g: Vec, t: Vec, a: Vec, b: Vec, n: nat)
    requires forall i :: 0 <= i < n ==> At(t, i) == At(a, i) + At(b, i)
    ensures Dot(g, t, n) == Dot(g, a, n) + Dot(g, b, n)
  {
    if n > 0 {
      DotPartsSum(g, t, a, b, n - 1);
      assert At(g, n - 1) * At(t, n - 1) == At(g, n - 1) * At(a, n - 1) + At(g, n - 1) * At(b, n - 1);
    }
  }

  // What the first operand is owed: the whole tangent of a unary node, its part otherwise.
  ghost function OwedFirst(v: Env, n: Id, g: Id): real
    requires g < |v.val| && n < |v.p| && n < |v.tan| && n < |v.val| && First(v.p[n]) < |v.val| && Second(v.p[n]) < |v.val| && First(v.p[n]) < |v.tan|
    requires |v.val[First(v.p[n])]| > 0 && |v.val[Second(v.p[n])]| > 0
  {
    if IsBinary(v.p[n].op) || v.p[n].op == Add1 then Dot(v.val[g], FirstPart(v, n), v.p[n].ne)
    else Dot(v.val[g], v.tan[n], v.p[n].ne)
  }

  lemma FirstDelivered(v: Env, b: Tape, needed: set<Id>, i: nat, g: Id)
    requires AtStep(v, b, needed, i, g) && g < |v.val| && First(v.p[v.nodes[i]]) < |v.val| && Second(v.p[v.nodes[i]]) < |v.val| && v.nodes[i] < |v.val|
    requires |v.val[First(v.p[v.nodes[i]])]| > 0 && |v.val[Second(v.p[v.nodes[i]])]| > 0
    requires var n := v.nodes[i]; Planned(v, FirstPlan(v.p[n], n, g, |b.p|, v.p[n].ne, v.p[First(v.p[n])].ne), |b.p|)
    ensures var n, x := v.nodes[i], First(v.p[v.nodes[i]]);
      var plan := FirstPlan(v.p[n], n, g, |b.p|, v.p[n].ne, v.p[x].ne);
      Handed(|b.p|, plan, g) < |v.val| &&
      OwedFirst(v, n, g) == Dot(Delivered(v.val[Handed(|b.p|, plan, g)], plan.how, v.p[x].ne), v.tan[x], v.p[x].ne)
  {
    StepSizes(v, b, needed, i, g);
    var n, x, y := v.nodes[i], First(v.p[v.nodes[i]]), Second(v.p[v.nodes[i]]);
    if IsBinary(v.p[n].op) || v.p[n].op == Add1 {
      assert IsFirstPart(v, n, x, y, FirstPart(v, n));
      BinaryFirst(v, n, x, y, g, |b.p|, FirstPart(v, n));
    } else {
      UnaryMoves(v, b, needed, i, g);
    }
  }

  lemma FirstHandedSize(v: Env, b: Tape, needed: set<Id>, i: nat, g: Id)
    requires AtStep(v, b, needed, i, g)
    ensures var n, x := v.nodes[i], First(v.p[v.nodes[i]]);
      x < |v.p| && HasRule(v.p[n].op) && x < |b.p| && n < |b.p| &&
      var plan := FirstPlan(v.p[n], n, g, |b.p|, b.p[g].ne, b.p[x].ne);
      && PlanOk(plan, |b.p|)
      && HandedSize(b, plan, g) == if plan.how == AddScalar then 1 else v.p[x].ne
  {
    StepSizes(v, b, needed, i, g);
    var n, x := v.nodes[i], First(v.p[v.nodes[i]]);
    FirstPlanOk(v.p[n], n, g, |b.p|, b.p[g].ne, b.p[x].ne);
  }

  lemma FirstServed(v: Env, o: Order, b: Tape, needed: set<Id>, i: nat, g: Id)
    requires AtStep(v, b, needed, i, g) && First(v.p[v.nodes[i]]) in needed
    requires v.nodes[i] < |b.p| && b.p[v.nodes[i]] == v.p[v.nodes[i]]
    requires HasRule(v.p[v.nodes[i]].op) && First(v.p[v.nodes[i]]) < v.nodes[i] && Second(v.p[v.nodes[i]]) < v.nodes[i]
    requires BackFirst(o, b, v.nodes[i], g).p <= v.pf
    requires g < |v.val| && v.nodes[i] < |v.val| && |v.val[First(v.p[v.nodes[i]])]| > 0 && |v.val[Second(v.p[v.nodes[i]])]| > 0
    ensures var c := BackFirst(o, b, v.nodes[i], g);
      && TapeSound(v, c) && b.p <= c.p && c.accs == b.accs
      && GradSum(v, c.grads, i, |v.nodes|) == GradSum(v, b.grads, i, |v.nodes|) + OwedFirst(v, v.nodes[i], g)
  {
    StepSizes(v, b, needed, i, g);
    FirstHandedSize(v, b, needed, i, g);
    var n, x := v.nodes[i], First(v.p[v.nodes[i]]);
    var plan := FirstPlan(v.p[n], n, g, |b.p|, b.p[g].ne, b.p[x].ne);
    ServeAdds(v, o, b, plan, x, g);
    FirstDelivered(v, b, needed, i, g);
    var j :| 0 <= j < i && v.nodes[j] == x;
    AddsSum(v, b, Serve(o, b, plan, x, g), j, Delivered(v.val[Handed(|b.p|, plan, g)], plan.how, v.p[x].ne), i);
  }

  lemma SecondHandedSize(v: Env, b: Tape, needed: set<Id>, i: nat, g: Id)
    requires AtStep(v, b, needed, i, g) && (IsBinary(v.p[v.nodes[i]].op) || v.p[v.nodes[i]].op == Add1)
    requires Second(v.p[v.nodes[i]]) < |v.p| && SecondServed(v.p[v.nodes[i]], v.p[Second(v.p[v.nodes[i]])].ne)
    ensures var n, x, y := v.nodes[i], First(v.p[v.nodes[i]]), Second(v.p[v.nodes[i]]);
      x < |b.p| && y < |b.p| && n < |b.p| &&
      var plan := SecondPlan(v.p[n], n, g, |b.p|, b.p[g].ne, b.p[x].ne, b.p[y].ne);
      && PlanOk(plan, |b.p|) && plan.how != AddScalar
      && HandedSize(b, plan, g) == v.p[y].ne
  {
    StepSizes(v, b, needed, i, g);
    var n, x, y := v.nodes[i], First(v.p[v.nodes[i]]), Second(v.p[v.nodes[i]]);
    SecondPlanOk(v.p[n], n, g, |b.p|, b.p[g].ne, b.p[x].ne, b.p[y].ne);
  }

  lemma SecondServedSum(v: Env, o: Order, b: Tape, needed: set<Id>, i: nat, g: Id)
    requires AtStep(v, b, needed, i, g) && Second(v.p[v.nodes[i]]) in needed
    requires v.nodes[i] < |b.p| && b.p[v.nodes[i]] == v.p[v.nodes[i]]
    requires IsBinary(v.p[v.nodes[i]].op) || v.p[v.nodes[i]].op == Add1
    requires First(v.p[v.nodes[i]]) < v.nodes[i] && Second(v.p[v.nodes[i]]) < v.nodes[i] < |v.p|
    requires SecondServed(v.p[v.nodes[i]], v.p[Second(v.p[v.nodes[i]])].ne)
    requires BackSecond(o, b, v.nodes[i], g).p <= v.pf
    requires g < |v.val| && v.nodes[i] < |v.val| && |v.val[First(v.p[v.nodes[i]])]| > 0 && |v.val[Second(v.p[v.nodes[i]])]| > 0
    ensures var c := BackSecond(o, b, v.nodes[i], g);
      && TapeSound(v, c) && b.p <= c.p && c.accs == b.accs
      && GradSum(v, c.grads, i, |v.nodes|) == GradSum(v, b.grads, i, |v.nodes|) + Dot(v.val[g], SecondPart(v, v.nodes[i]), v.p[v.nodes[i]].ne)
  {
    hide SecondPlan, Serve;
    StepSizes(v, b, needed, i, g);
    SecondHandedSize(v, b, needed, i, g);
    var n, x, y := v.nodes[i], First(v.p[v.nodes[i]]), Second(v.p[v.nodes[i]]);
    var plan := SecondPlan(v.p[n], n, g, |b.p|, b.p[g].ne, b.p[x].ne, b.p[y].ne);
    ServeAdds(v, o, b, plan, y, g);
    assert IsSecondPart(v, n, x, y, SecondPart(v, n));
    BinarySecond(v, n, x, y, g, |b.p|, SecondPart(v, n));
    var j :| 0 <= j < i && v.nodes[j] == y;
    AddsSum(v, b, Serve(o, b, plan, y, g), j, Delivered(v.val[Handed(|b.p|, plan, g)], plan.how, v.p[y].ne), i);
  }

  // An operand that needs no gradient is owed nothing.
  lemma NothingOwed(v: Env, b: Tape, needed: set<Id>, i: nat, g: Id)
    requires AtStep(v, b, needed, i, g) && g < |v.val| && v.nodes[i] < |v.val|
    requires First(v.p[v.nodes[i]]) < |v.val| && Second(v.p[v.nodes[i]]) < |v.val|
    requires |v.val[First(v.p[v.nodes[i]])]| > 0 && |v.val[Second(v.p[v.nodes[i]])]| > 0
    ensures First(v.p[v.nodes[i]]) !in needed ==> OwedFirst(v, v.nodes[i], g) == 0.0
    ensures Second(v.p[v.nodes[i]]) !in needed ==> Dot(v.val[g], SecondPart(v, v.nodes[i]), v.p[v.nodes[i]].ne) == 0.0
  {
    StepSizes(v, b, needed, i, g);
    var n, x, y := v.nodes[i], First(v.p[v.nodes[i]]), Second(v.p[v.nodes[i]]);
    if x !in needed {
      forall k | 0 <= k < v.p[n].ne ensures At(FirstPart(v, n), k) == 0.0 {
        FirstPartZero(v.e, v.p[n], v.val[n], v.val[x], v.val[y], v.tan[x], k);
      }
      if IsBinary(v.p[n].op) || v.p[n].op == Add1 {
        DotZero(v.val[g], FirstPart(v, n), v.p[n].ne);
      } else {
        assert y == x;
        forall k | 0 <= k < v.p[n].ne ensures At(v.tan[n], k) == 0.0 {
          assert At(v.tan[n], k) == At(FirstPart(v, n), k);
        }
        DotZero(v.val[g], v.tan[n], v.p[n].ne);
      }
    }
    if y !in needed {
      forall k | 0 <= k < v.p[n].ne ensures At(SecondPart(v, n), k) == 0.0 {
        SecondPartZero(v.p[n], v.val[n], v.val[x], v.val[y], v.tan[y], k);
      }
      DotZero(v.val[g], SecondPart(v, n), v.p[n].ne);
    }
  }
}
