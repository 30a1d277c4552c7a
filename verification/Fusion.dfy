// When a list of graph nodes may be fused into one kernel
// (tools/ref/ggml.c, ggml_can_fuse_subgraph_ext).
module Fusion {
  import opened Tensors
  import opened GraphBuild
  import opened GraphFacts
  import opened GraphRuns
  import opened Options

  // The operation code alone: parameters do not matter, and all unary operations share one code.
  datatype OpKind =
    | KNone | KDup | KAdd | KAdd1 | KSub | KMul | KDiv | KSqr | KSqrt | KLog | KSin | KCos
    | KSum | KMean | KRepeat | KRepeatBack | KScale | KUnary | KCpy | KOther(code: nat)

  function Kind(op: Op): OpKind {
    match op
    case NoOp => KNone case Dup => KDup case Add => KAdd case Add1 => KAdd1 case Sub => KSub
    case Mul => KMul case Div => KDiv case Sqr => KSqr case Sqrt => KSqrt case Log => KLog
    case Sin => KSin case Cos => KCos case Sum => KSum case Mean => KMean case Repeat => KRepeat
    case RepeatBack => KRepeatBack case Scale(_, _) => KScale case Neg => KUnary case Exp => KUnary
    case Cpy => KCpy case Other(c) => KOther(c)
  }

  // Views point at tensors allocated before them.
  ghost predicate ViewsOrdered(p: Pool) {
    forall n :: 0 <= n < |p| && p[n].viewSrc.Some? ==> p[n].viewSrc.value < n
  }

  ghost predicate Distinct(idxs: seq<nat>) {
    forall i, j :: 0 <= i < j < |idxs| ==> idxs[i] != idxs[j]
  }

  // x is found in the listed nodes before any index that is out of range.
  ghost predicate Lists(nodes: seq<Id>, idxs: seq<nat>, x: Id) {
    exists i :: 0 <= i < |idxs| && (forall k :: 0 <= k <= i ==> idxs[k] < |nodes|) && nodes[idxs[i]] == x
  }

  ghost predicate Later(nodes: seq<Id>, idxs: seq<nat>, from: nat, m: Id) {
    exists j :: from <= j < |idxs| && idxs[j] < |nodes| && nodes[idxs[j]] == m
  }

  // Every slot of the whole graph that reads x belongs to a later node of the subgraph.
  ghost predicate ConsumersInside(p: Pool, nodes: seq<Id>, idxs: seq<nat>, from: nat, x: Id) {
    forall m :: m in nodes && m < |p| && IsSource(p, m, x) ==> Later(nodes, idxs, from, m)
  }

  // Every tensor that x is a view of, directly or through other views, is in the subgraph or constant.
  ghost predicate ViewsInside(p: Pool, nodes: seq<Id>, idxs: seq<nat>, x: Id)
    requires ViewsOrdered(p) && x < |p|
  {
    p[x].viewSrc.Some? ==>
      var v := p[x].viewSrc.value;
      (Lists(nodes, idxs, v) || (p[v].constant && !p[v].param)) && ViewsInside(p, nodes, idxs, v)
  }

  // Each tensor is a view of the next.
  ghost predicate ViewChain(p: Pool, chain: seq<Id>) {
    forall k: nat :: k + 1 < |chain| ==> chain[k] < |p| && p[chain[k]].viewSrc == Some(chain[k + 1])
  }

  ghost predicate AllowedSource(p: Pool, nodes: seq<Id>, idxs: seq<nat>, v: Id) {
    Lists(nodes, idxs, v) || (v < |p| && p[v].constant && !p[v].param)
  }

  // Whatever x is a view of is in the subgraph or constant.
  ghost predicate SourcesAllowed(p: Pool, nodes: seq<Id>, idxs: seq<nat>, x: Id) {
    forall chain: seq<Id> :: ViewChain(p, chain) && |chain| > 1 && chain[0] == x ==> AllowedSource(p, nodes, idxs, chain[|chain| - 1])
  }

  lemma ChainCons(p: Pool, x: Id, chain: seq<Id>)
    requires x < |p| && chain != [] && p[x].viewSrc == Some(chain[0])
    ensures ViewChain(p, [x] + chain) <==> ViewChain(p, chain)
  {
    var all := [x] + chain;
    assert all[1..] == chain;
    if ViewChain(p, all) {
      forall k: nat | k + 1 < |chain| ensures chain[k] < |p| && p[chain[k]].viewSrc == Some(chain[k + 1]) {
        assert all[k + 1] == chain[k] && all[k + 1 + 1] == chain[k + 1];
      }
    }
  }

  lemma {:induction false} InsideAllows(p: Pool, nodes: seq<Id>, idxs: seq<nat>, x: Id, chain: seq<Id>)
    requires ViewsOrdered(p) && x < |p| && ViewsInside(p, nodes, idxs, x)
    requires ViewChain(p, chain) && |chain| > 1 && chain[0] == x
    ensures AllowedSource(p, nodes, idxs, chain[|chain| - 1])
  {
    assert p[chain[0]].viewSrc == Some(chain[0 + 1]);
    if |chain| > 2 {
      assert [x] + chain[1..] == chain;
      ChainCons(p, x, chain[1..]);
      InsideAllows(p, nodes, idxs, chain[1], chain[1..]);
    }
  }

  lemma {:induction false} AllowedIsInside(p: Pool, nodes: seq<Id>, idxs: seq<nat>, x: Id)
    requires ViewsOrdered(p) && x < |p| && SourcesAllowed(p, nodes, idxs, x)
    ensures ViewsInside(p, nodes, idxs, x)
  {
    if p[x].viewSrc.Some? {
      var v := p[x].viewSrc.value;
      ChainCons(p, x, [v]);
      assert ([x] + [v])[1] == v && AllowedSource(p, nodes, idxs, v);
      forall chain: seq<Id> | ViewChain(p, chain) && |chain| > 1 && chain[0] == v ensures AllowedSource(p, nodes, idxs, chain[|chain| - 1]) {
        ChainCons(p, x, chain);
        assert ([x] + chain)[|chain|] == chain[|chain| - 1];
      }
      AllowedIsInside(p, nodes, idxs, v);
    }
  }

  lemma ViewsInsideExactly(p: Pool, nodes: seq<Id>, idxs: seq<nat>, x: Id)
    requires ViewsOrdered(p) && x < |p|
    ensures ViewsInside(p, nodes, idxs, x) <==> SourcesAllowed(p, nodes, idxs, x)
  {
    if ViewsInside(p, nodes, idxs, x) {
      forall chain: seq<Id> | ViewChain(p, chain) && |chain| > 1 && chain[0] == x ensures AllowedSource(p, nodes, idxs, chain[|chain| - 1]) {
        InsideAllows(p, nodes, idxs, x, chain);
      }
    }
    if SourcesAllowed(p, nodes, idxs, x) { AllowedIsInside(p, nodes, idxs, x); }
  }

  // The operations that an entry of the list of codes stands for.
  predicate Accepts(k: OpKind, op: Op) {
    match k
    case KNone => op.NoOp? case KDup => op.Dup? case KAdd => op.Add? case KAdd1 => op.Add1? case KSub => op.Sub?
    case KMul => op.Mul? case KDiv => op.Div? case KSqr => op.Sqr? case KSqrt => op.Sqrt? case KLog => op.Log?
    case KSin => op.Sin? case KCos => op.Cos? case KSum => op.Sum? case KMean => op.Mean? case KRepeat => op.Repeat?
    case KRepeatBack => op.RepeatBack? case KScale => op.Scale? case KUnary => op.Neg? || op.Exp?
    case KCpy => op.Cpy? case KOther(c) => op == Other(c)
  }

  lemma KindIsAccepted(op: Op, k: OpKind)
    ensures Kind(op) == k <==> Accepts(k, op)
  {
  }

  ghost predicate NodeFusable(p: Pool, s: State, idxs: seq<nat>, ops: seq<OpKind>, outputs: seq<nat>, i: nat)
    requires i < |idxs| <= |ops| && (forall n :: n in s.nodes ==> n < |p|)
  {
    && idxs[i] < |s.nodes|
    && (var x := s.nodes[idxs[i]];
        && x in s.nodes
        && Accepts(ops[i], p[x].op) && x in s.flags
        && (Lists(s.nodes, outputs, x) ||
            (!p[x].output && ConsumersInside(p, s.nodes, idxs, i + 1, x) && SourcesAllowed(p, s.nodes, idxs, x))))
  }

  // The same with the test that the source makes, on counts of uses.
  ghost predicate NodePasses(p: Pool, s: State, idxs: seq<nat>, ops: seq<OpKind>, outputs: seq<nat>, i: nat)
    requires ViewsOrdered(p) && i < |idxs| <= |ops| && (forall n :: n in s.nodes ==> n < |p|)
  {
    && idxs[i] < |s.nodes|
    && (var x := s.nodes[idxs[i]];
        && x in s.nodes
        && Kind(p[x].op) == ops[i] && x in s.flags
        && (Lists(s.nodes, outputs, x) ||
            (!p[x].output && SubgraphUses(p, s.nodes, idxs, i + 1, x) == Uses(s, x) && ViewsInside(p, s.nodes, idxs, x))))
  }

  lemma PassingIsFusable(p: Pool, s: State, idxs: seq<nat>, ops: seq<OpKind>, outputs: seq<nat>, i: nat)
    requires GraphInv(p, s) && ViewsOrdered(p) && Distinct(idxs) && i < |idxs| <= |ops| && (forall n :: n in s.nodes ==> n < |p|)
    ensures NodePasses(p, s, idxs, ops, outputs, i) <==> NodeFusable(p, s, idxs, ops, outputs, i)
  {
    hide SourcesAllowed, Accepts, Kind;
    if idxs[i] < |s.nodes| {
      var x := s.nodes[idxs[i]];
      CountTestIsExact(p, s, idxs, i + 1, x);
      KindIsAccepted(p[x].op, ops[i]);
      assert x in s.nodes;
      ViewsInsideExactly(p, s.nodes, idxs, x);
    }
  }

  // ---- counting argument ---------------------------------------------------------------

  // Slots reading x among the listed nodes from position j on; an index out of range adds nothing.
  function SubgraphUses(p: Pool, nodes: seq<Id>, idxs: seq<nat>, j: nat, x: Id): nat
    requires j <= |idxs|
    decreases |idxs| - j
  {
    if j == |idxs| then 0
    else (if idxs[j] < |nodes| then SlotRefs(p, nodes[idxs[j]], x) else 0) + SubgraphUses(p, nodes, idxs, j + 1, x)
  }

  // Slots reading x among those nodes that belong to the set.
  ghost function RefsIn(p: Pool, list: seq<Id>, within: set<Id>, x: Id): nat {
    if list == [] then 0
    else (if list[0] in within then SlotRefs(p, list[0], x) else 0) + RefsIn(p, list[1..], within, x)
  }

  lemma {:induction false} RefsInAdd(p: Pool, list: seq<Id>, within: set<Id>, m: Id, x: Id)
    requires NoDup(list) && m !in within
    ensures RefsIn(p, list, within + {m}, x) == RefsIn(p, list, within, x) + if m in list then SlotRefs(p, m, x) else 0
  {
    if list != [] {
      assert NoDup(list[1..]) && list[0] !in list[1..];
      RefsInAdd(p, list[1..], within, m, x);
    }
  }

  ghost function LaterSet(nodes: seq<Id>, idxs: seq<nat>, j: nat): set<Id>
    requires j <= |idxs|
    decreases |idxs| - j
  {
    if j == |idxs| then {}
    else LaterSet(nodes, idxs, j + 1) + if idxs[j] < |nodes| then {nodes[idxs[j]]} else {}
  }

  lemma {:induction false} LaterSetMembers(nodes: seq<Id>, idxs: seq<nat>, j: nat, m: Id)
    requires j <= |idxs|
    ensures m in LaterSet(nodes, idxs, j) <==> Later(nodes, idxs, j, m)
    decreases |idxs| - j
  {
    if j < |idxs| {
      LaterSetMembers(nodes, idxs, j + 1, m);
    }
  }

  lemma {:induction false} SubgraphUsesAsSet(p: Pool, nodes: seq<Id>, idxs: seq<nat>, j: nat, x: Id)
    requires NoDup(nodes) && Distinct(idxs) && j <= |idxs|
    ensures SubgraphUses(p, nodes, idxs, j, x) == RefsIn(p, nodes, LaterSet(nodes, idxs, j), x)
    decreases |idxs| - j
  {
    if j == |idxs| {
      NoRefsInEmpty(p, nodes, x);
    } else {
      SubgraphUsesAsSet(p, nodes, idxs, j + 1, x);
      if idxs[j] < |nodes| {
        var m := nodes[idxs[j]];
        LaterSetMembers(nodes, idxs, j + 1, m);
        assert m !in LaterSet(nodes, idxs, j + 1);
        RefsInAdd(p, nodes, LaterSet(nodes, idxs, j + 1), m, x);
      } else {
        assert LaterSet(nodes, idxs, j) == LaterSet(nodes, idxs, j + 1);
      }
    }
  }

  lemma {:induction false} NoRefsInEmpty(p: Pool, list: seq<Id>, x: Id)
    ensures RefsIn(p, list, {}, x) == 0
  {
    if list != [] { NoRefsInEmpty(p, list[1..], x); }
  }

  // A part equals the whole only when nothing outside the part contributes.
  lemma {:induction false} PartIsWhole(p: Pool, list: seq<Id>, within: set<Id>, x: Id)
    ensures RefsIn(p, list, within, x) <= Refs(p, list, x)
    ensures RefsIn(p, list, within, x) == Refs(p, list, x) <==>
              forall m :: m in list && m < |p| && IsSource(p, m, x) ==> m in within
  {
    if list != [] {
      PartIsWhole(p, list[1..], within, x);
      assert SlotRefs(p, list[0], x) > 0 <==> list[0] < |p| && IsSource(p, list[0], x);
      assert forall m :: m in list <==> m == list[0] || m in list[1..];
    }
  }

  // On a graph kept by forward expansion, the count test accepts a node exactly when all
  // of its consumers in the whole graph are later nodes of the subgraph.
  lemma CountTestIsExact(p: Pool, s: State, idxs: seq<nat>, j: nat, x: Id)
    requires GraphInv(p, s) && Distinct(idxs) && j <= |idxs|
    ensures SubgraphUses(p, s.nodes, idxs, j, x) == Uses(s, x) <==> ConsumersInside(p, s.nodes, idxs, j, x)
  {
    SubgraphUsesAsSet(p, s.nodes, idxs, j, x);
    PartIsWhole(p, s.nodes, LaterSet(s.nodes, idxs, j), x);
    forall m ensures m in LaterSet(s.nodes, idxs, j) <==> Later(s.nodes, idxs, j, m) {
      LaterSetMembers(s.nodes, idxs, j, m);
    }
  }
}
