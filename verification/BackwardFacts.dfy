// What one call of the gradient code adds to the gradient of an operand.
module BackwardFacts {
  import opened Tensors
  import opened Values
  import opened GraphBuild
  import opened GraphFacts
  import opened Backward

  // A forward graph with its final gradient pool, values for every tensor of that pool
  // and tangents for every forward tensor.
  datatype Env = Env(e: Elementary, p: Pool, nodes: seq<Id>, pf: Pool, val: seq<Vec>, tan: seq<Vec>)

  ghost predicate EnvOk(v: Env) {
    && v.p <= v.pf
    && Evaluates(v.e, v.pf, v.val)
    && Sized(v.p, v.val) && Sized(v.p, v.tan)
  }

  // The forward nodes are modelled operations and their tangents follow their operands'.
  ghost predicate EnvTangents(v: Env)
    requires EnvOk(v)
  {
    && AllShaped(v.p, v.nodes) && NoDup(v.nodes)
    && (forall k :: 0 <= k < |v.nodes| ==> TangentComputed(v.e, v.p, v.val, v.tan, v.nodes[k]))
  }

  // Gradients have the shape of their tensors, and the construction stays inside the final pool.
  ghost predicate TapeSound(v: Env, b: Tape) {
    && TapeOk(b) && v.p <= b.p && b.p <= v.pf
    && (forall n :: n in b.grads ==> n < |v.p| && b.p[b.grads[n]].ne == v.p[n].ne)
  }

  ghost function GradAt(v: Env, b: Tape, x: Id, i: nat): real {
    if x in b.grads && b.grads[x] < |v.val| then At(v.val[b.grads[x]], i) else 0.0
  }

  // From b to c the gradient of x grows by d and no other gradient changes.
  ghost predicate Adds(v: Env, b: Tape, c: Tape, x: Id, d: Vec) {
    && TapeSound(v, c) && b.p <= c.p && c.accs == b.accs && x < |v.p|
    && c.grads.Keys == b.grads.Keys + {x}
    && (forall y :: y in b.grads && y != x ==> c.grads[y] == b.grads[y])
    && (forall i :: 0 <= i < v.p[x].ne ==> GradAt(v, c, x, i) == GradAt(v, b, x, i) + At(d, i))
  }

  // ---- sizes and values of what is allocated -----------------------------------------------

  lemma ValueSize(v: Env, b: Tape, g: Id)
    requires EnvOk(v) && b.p <= v.pf && g < |b.p|
    ensures g < |v.val| && |v.val[g]| == b.p[g].ne && v.pf[g] == b.p[g]
  {
  }

  lemma EmitSound(v: Env, b: Tape, t: Tensor)
    requires TapeSound(v, b) && Names(t, |b.p|) && b.p + [t] <= v.pf
    ensures TapeSound(v, Emit(b, t))
    ensures |b.p| < |v.pf| && v.pf[|b.p|] == t
  {
    EmitOk(b, t);
    assert forall n :: 0 <= n < |b.p| ==> Emit(b, t).p[n] == b.p[n];
  }

  // The value of a tensor of the final pool, by its operation.
  lemma UnaryValue(v: Env, z: Id, op: Op, x: Id, ne: Count)
    requires EnvOk(v) && z < |v.pf| && v.pf[z] == Unary(op, x, ne) && op != NoOp
    requires Shaped(v.pf, z)
    ensures |v.val[z]| == ne && |v.val[x]| == v.pf[x].ne
    ensures forall i :: 0 <= i < ne ==> At(v.val[z], i) == EvalAt(v.e, op, ne, v.val[x], v.val[x], i)
  {
    assert Computed(v.e, v.pf, v.val, z);
  }

  // Same-sized operands of the four arithmetic operations.
  lemma BinaryValue(v: Env, z: Id, op: Op, x: Id, y: Id, ne: Count)
    requires EnvOk(v) && z < |v.pf| && v.pf[z] == Binary(op, x, y, ne) && IsBinary(op)
    requires x < z && y < z && v.pf[x].ne == ne && v.pf[y].ne == ne
    ensures |v.val[z]| == ne && |v.val[x]| == ne && |v.val[y]| == ne
    ensures op == Add ==> forall i :: 0 <= i < ne ==> At(v.val[z], i) == At(v.val[x], i) + At(v.val[y], i)
    ensures op == Sub ==> forall i :: 0 <= i < ne ==> At(v.val[z], i) == At(v.val[x], i) - At(v.val[y], i)
    ensures op == Mul ==> forall i :: 0 <= i < ne ==> At(v.val[z], i) == At(v.val[x], i) * At(v.val[y], i)
    ensures op == Div ==> forall i :: 0 <= i < ne ==> At(v.val[z], i) == Quotient(At(v.val[x], i), At(v.val[y], i))
  {
    TiledValue(v, z, op, x, y, ne);
    assert forall i :: 0 <= i < ne ==> i % ne == i;
  }

  lemma TiledValue(v: Env, z: Id, op: Op, x: Id, y: Id, ne: Count)
    requires EnvOk(v) && z < |v.pf| && v.pf[z] == Binary(op, x, y, ne) && IsBinary(op)
    requires x < z && y < z && v.pf[x].ne == ne && ne % v.pf[y].ne == 0
    ensures |v.val[z]| == ne && |v.val[x]| == ne && |v.val[y]| == v.pf[y].ne
    ensures forall i :: 0 <= i < ne ==> At(v.val[z], i) == EvalAt(v.e, op, ne, v.val[x], v.val[y], i)
  {
    assert Shaped(v.pf, z);
    assert Computed(v.e, v.pf, v.val, z);
  }

  lemma Add1Value(v: Env, z: Id, x: Id, y: Id, ne: Count)
    requires EnvOk(v) && z < |v.pf| && v.pf[z] == Binary(Add1, x, y, ne)
    requires x < z && y < z && v.pf[x].ne == ne && v.pf[y].ne == 1
    ensures |v.val[z]| == ne && |v.val[x]| == ne && |v.val[y]| == 1
    ensures forall i :: 0 <= i < ne ==> At(v.val[z], i) == At(v.val[x], i) + At(v.val[y], 0)
  {
    assert Shaped(v.pf, z);
    assert Computed(v.e, v.pf, v.val, z);
  }

  // ---- the accumulators ------------------------------------------------------------------

  // Tensor g becomes the gradient of x; its value is the old gradient plus d.
  lemma AssignAdds(v: Env, o: Order, b: Tape, x: Id, g: Id, d: Vec)
    requires EnvOk(v) && TapeSound(v, b) && x < |v.p| && g < |b.p| && b.p[g].ne == v.p[x].ne
    requires g < |v.val|
    requires forall i :: 0 <= i < v.p[x].ne ==> At(v.val[g], i) == GradAt(v, b, x, i) + At(d, i)
    ensures Adds(v, b, Assign(o, b, x, g), x, d)
  {
  }

  lemma AddsAfterEmit(v: Env, b: Tape, c: Tape, f: Tape, x: Id, d: Vec)
    requires Adds(v, c, f, x, d) && b.p <= c.p && c.accs == b.accs && c.grads == b.grads
    ensures Adds(v, b, f, x, d)
  {
    forall i | 0 <= i < v.p[x].ne ensures GradAt(v, f, x, i) == GradAt(v, b, x, i) + At(d, i) {
      assert GradAt(v, c, x, i) == GradAt(v, b, x, i);
    }
  }

  lemma CombineAdds(v: Env, o: Order, b: Tape, x: Id, g: Id, op: Op, d: Vec)
    requires EnvOk(v) && TapeSound(v, b) && x in b.grads && g < |b.p|
    requires b.p + [Binary(op, b.grads[x], g, b.p[b.grads[x]].ne)] <= v.pf
    requires g < |v.val|
    requires op == Add || op == Sub || op == Add1
    requires op != Add1 ==> b.p[g].ne == v.p[x].ne
    requires op == Add1 ==> b.p[g].ne == 1
    requires op == Add ==> forall i :: 0 <= i < v.p[x].ne ==> At(d, i) == At(v.val[g], i)
    requires op == Sub ==> forall i :: 0 <= i < v.p[x].ne ==> At(d, i) == -At(v.val[g], i)
    requires op == Add1 ==> forall i :: 0 <= i < v.p[x].ne ==> At(d, i) == At(v.val[g], 0)
    ensures Adds(v, b, Combine(o, b, x, g, op), x, d)
  {
    var prior, z := b.grads[x], |b.p|;
    var ne := b.p[prior].ne;
    EmitSound(v, b, Binary(op, prior, g, ne));
    ValueSize(v, b, g);
    ValueSize(v, b, prior);
    if op == Add1 { Add1Value(v, z, prior, g, ne); } else { BinaryValue(v, z, op, prior, g, ne); }
    var c := Emit(b, Binary(op, prior, g, ne));
    assert forall i :: 0 <= i < v.p[x].ne ==> GradAt(v, c, x, i) == At(v.val[prior], i);
    AssignAdds(v, o, c, x, z, d);
    AddsAfterEmit(v, b, c, Assign(o, c, x, z), x, d);
  }

  // A gradient that does not exist yet is started by a fresh unary operation.
  lemma StartAdds(v: Env, o: Order, b: Tape, x: Id, g: Id, op: Op, d: Vec)
    requires EnvOk(v) && TapeSound(v, b) && x < |v.p| && x !in b.grads && g < |b.p| && g < |v.val|
    requires b.p + [Unary(op, g, v.p[x].ne)] <= v.pf
    requires op == Neg || op == Repeat
    requires op == Neg ==> b.p[g].ne == v.p[x].ne && forall i :: 0 <= i < v.p[x].ne ==> At(d, i) == -At(v.val[g], i)
    requires op == Repeat ==> b.p[g].ne == 1 && forall i :: 0 <= i < v.p[x].ne ==> At(d, i) == At(v.val[g], 0)
    ensures Adds(v, b, Assign(o, Emit(b, Unary(op, g, v.p[x].ne)), x, |b.p|), x, d)
  {
    var z := |b.p|;
    EmitSound(v, b, Unary(op, g, v.p[x].ne));
    ValueSize(v, b, g);
    UnaryValue(v, z, op, g, v.p[x].ne);
    var c := Emit(b, Unary(op, g, v.p[x].ne));
    AssignAdds(v, o, c, x, z, d);
    AddsAfterEmit(v, b, c, Assign(o, c, x, z), x, d);
  }

  lemma AddOrSetAdds(v: Env, o: Order, b: Tape, x: Id, g: Id)
    requires EnvOk(v) && TapeSound(v, b) && x < |v.p| && g < |b.p| && b.p[g].ne == v.p[x].ne
    requires AddOrSet(o, b, x, g).p <= v.pf
    ensures g < |v.val| && Adds(v, b, AddOrSet(o, b, x, g), x, v.val[g])
  {
    ValueSize(v, b, g);
    if x in b.grads {
      CombineAdds(v, o, b, x, g, Add, v.val[g]);
    } else {
      AssignAdds(v, o, b, x, g, v.val[g]);
    }
  }

  function Negated(u: Vec): Vec {
    seq(|u|, i => -At(u, i))
  }

  function Constant(a: real, n: nat): Vec {
    seq(n, i => a)
  }

  lemma SubOrSetAdds(v: Env, o: Order, b: Tape, x: Id, g: Id)
    requires EnvOk(v) && TapeSound(v, b) && x < |v.p| && g < |b.p| && b.p[g].ne == v.p[x].ne
    requires SubOrSet(o, b, x, g).p <= v.pf
    ensures g < |v.val| && Adds(v, b, SubOrSet(o, b, x, g), x, Negated(v.val[g]))
  {
    hide TapeSound;
    ValueSize(v, b, g);
    if x in b.grads {
      CombineAdds(v, o, b, x, g, Sub, Negated(v.val[g]));
    } else {
      StartAdds(v, o, b, x, g, Neg, Negated(v.val[g]));
    }
  }

  lemma Add1OrSetAdds(v: Env, o: Order, b: Tape, x: Id, g: Id)
    requires EnvOk(v) && TapeSound(v, b) && x < |v.p| && g < |b.p| && b.p[g].ne == 1
    requires Add1OrSet(o, b, x, g).p <= v.pf
    ensures g < |v.val| && Adds(v, b, Add1OrSet(o, b, x, g), x, Constant(At(v.val[g], 0), v.p[x].ne))
  {
    hide TapeOk;
    ValueSize(v, b, g);
    if x in b.grads {
      CombineAdds(v, o, b, x, g, Add1, Constant(At(v.val[g], 0), v.p[x].ne));
    } else {
      assert b.p[x] == v.p[x];
      StartAdds(v, o, b, x, g, Repeat, Constant(At(v.val[g], 0), v.p[x].ne));
    }
  }
}
