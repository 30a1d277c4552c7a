// Tensors as the graph engine sees them: an operation, its source slots and the
// flags that the graph algorithms read.  A tensor is named by its position in the
// context that allocated it, so a pool is a sequence of tensors.
module Tensors {
  import opened Options

  type Id = nat

  type Count = n: int | 0 < n witness 1

  // NoOp is GGML_OP_NONE.  The unary operations are listed beside the others.
  datatype Op =
    | NoOp
    | Dup | Add | Add1 | Sub | Mul | Div
    | Sqr | Sqrt | Log | Sin | Cos
    | Sum | Mean | Repeat | RepeatBack
    | Scale(s: real, bias: real)
    | Neg | Exp
    | Cpy
    | Other(code: nat)

  datatype Tensor = Tensor(
    op: Op,
    src: seq<Option<Id>>,
    ne: Count,
    param: bool := false,
    loss: bool := false,
    output: bool := false,
    viewSrc: Option<Id> := None,
    constant: bool := false)

  type Pool = seq<Tensor>

  predicate IsSource(p: Pool, n: Id, x: Id)
    requires n < |p|
  {
    Some(x) in p[n].src
  }

  // A leaf is kept out of the gradient graph.
  predicate IsLeaf(t: Tensor) {
    t.op == NoOp && !t.param
  }

  // Slots name tensors of the pool, and only operations have operands.
  ghost predicate WellFormed(p: Pool) {
    && (forall n, k :: 0 <= n < |p| && 0 <= k < |p[n].src| && p[n].src[k].Some? ==> p[n].src[k].value < |p|)
    && (forall n, k :: 0 <= n < |p| && 0 <= k < |p[n].src| && p[n].op == NoOp ==> p[n].src[k] == None)
  }

  // rank certifies that the only cycles are self-edges (a cast names itself as its target).
  ghost predicate Acyclic(p: Pool, rank: seq<nat>) {
    && |rank| == |p|
    && (forall n, k :: 0 <= n < |p| && 0 <= k < |p[n].src| && p[n].src[k].Some? ==>
          p[n].src[k].value < |p| && (p[n].src[k].value == n || rank[p[n].src[k].value] < rank[n]))
  }

  // The tensors allocated by one context, and which of them carry the compute flag.
  class Context {
    var tensors: Pool
    var compute: set<Id>

    constructor ()
      ensures tensors == [] && compute == {}
    {
      tensors := [];
      compute := {};
    }

    method NewTensor(t: Tensor) returns (id: Id)
      modifies this`tensors
      ensures tensors == old(tensors) + [t]
      ensures id == old(|tensors|)
    {
      id := |tensors|;
      tensors := tensors + [t];
    }
  }
}
