// ADD1 with a scalar parameter: the gradient that the builder leaves is not the derivative.
module Add1Example {
  import opened Options
  import opened Tensors
  import opened Values
  import opened Calculus
  import opened Derivatives
  import opened GraphBuild
  import opened GraphRuns
  import opened Backward
  import opened GradientTheorem
  import opened PartialDerivatives

  // A constant of two entries, a scalar parameter, their ADD1 and its SUM, which is the loss.
  const INPUT: Id := 0
  const PARAMETER: Id := 1
  const ADDED: Id := 2
  const LOSS: Id := 3

  function Example(): Pool {
    [Tensor(NoOp, [], 2), Tensor(NoOp, [], 1, true), Tensor(Add1, [Some(INPUT), Some(PARAMETER)], 2), Tensor(Sum, [Some(ADDED)], 1, false, true)]
  }

  lemma ExampleOk()
    ensures WellFormed(Example()) && Acyclic(Example(), [0, 0, 1, 2])
    ensures AllShaped(Example(), [PARAMETER, ADDED, LOSS])
  {
    ExampleRanked();
    ExampleShaped();
  }

  lemma ExampleRanked()
    ensures WellFormed(Example()) && Acyclic(Example(), [0, 0, 1, 2])
  {
  }

  lemma ExampleShaped()
    ensures AllShaped(Example(), [PARAMETER, ADDED, LOSS])
  {
    assert Shaped(Example(), PARAMETER);
    assert Shaped(Example(), ADDED);
    assert Shaped(Example(), LOSS);
  }

  // ---- the graph ---------------------------------------------------------------------------------

  lemma VisitInput(p: Pool, o: Order, s: State, n: Id, compute: bool)
    requires WellFormed(p) && n < |p| && p[n].src == [] && n !in s.uses
    ensures Visit(p, o, s, n, compute) == Record(p, Open(p, s, n, compute), n)
  {
  }

  lemma VisitOne(p: Pool, o: Order, s: State, n: Id, x: Id, compute: bool)
    requires WellFormed(p) && n < |p| && p[n].src == [Some(x)] && n !in s.uses && x < |p|
    ensures Visit(p, o, s, n, compute) == Record(p, CountUse(Visit(p, o, Open(p, s, n, compute), x, compute), x), n)
  {
    var u := CountUse(Visit(p, o, Open(p, s, n, compute), x, compute), x);
    assert VisitSources(p, o, u, n, 1, compute) == u;
  }

  lemma VisitTwo(p: Pool, s: State, n: Id, x: Id, y: Id, compute: bool) returns (u: State)
    requires WellFormed(p) && n < |p| && p[n].src == [Some(x), Some(y)] && n !in s.uses && x < |p| && y < |p|
    ensures u == CountUse(Visit(p, LeftToRight, Open(p, s, n, compute), x, compute), x)
    ensures Visit(p, LeftToRight, s, n, compute) == Record(p, CountUse(Visit(p, LeftToRight, u, y, compute), y), n)
  {
    u := CountUse(Visit(p, LeftToRight, Open(p, s, n, compute), x, compute), x);
    var w := CountUse(Visit(p, LeftToRight, u, y, compute), y);
    assert VisitSources(p, LeftToRight, w, n, 2, compute) == w;
    assert VisitSources(p, LeftToRight, u, n, 1, compute) == w;
  }

  // What one forward expansion of the loss builds.
  ghost function Graph(): State {
    ExampleOk();
    Visit(Example(), LeftToRight, EMPTY_STATE, LOSS, true)
  }

  lemma AddedVisit(p: Pool, s: State)
    requires p == Example() && INPUT !in s.uses && PARAMETER !in s.uses && ADDED !in s.uses
    ensures WellFormed(p)
    ensures var t := Visit(p, LeftToRight, s, ADDED, true); t.nodes == s.nodes + [PARAMETER, ADDED] && t.leafs == s.leafs + [INPUT] && ADDED in t.uses
  {
    ExampleOk();
    var a := Open(p, s, ADDED, true);
    var u := VisitTwo(p, s, ADDED, INPUT, PARAMETER, true);
    VisitInput(p, LeftToRight, a, INPUT, true);
    VisitInput(p, LeftToRight, u, PARAMETER, true);
  }

  lemma LossVisit(p: Pool, s: State)
    requires p == Example() && s.uses == map[] && s.nodes == s.leafs == []
    ensures WellFormed(p)
    ensures var t := Visit(p, LeftToRight, s, LOSS, true); t.nodes == [PARAMETER, ADDED, LOSS] && t.leafs == [INPUT]
  {
    ExampleOk();
    VisitOne(p, LeftToRight, s, LOSS, ADDED, true);
    AddedVisit(p, Open(p, s, LOSS, true));
    RecordNode(p, CountUse(Visit(p, LeftToRight, Open(p, s, LOSS, true), ADDED, true), ADDED), LOSS);
  }

  lemma RecordNode(p: Pool, s: State, n: Id)
    requires n < |p| && p[n].op != NoOp
    ensures Record(p, s, n).nodes == s.nodes + [n] && Record(p, s, n).leafs == s.leafs
  {
  }

  lemma GraphNodes()
    ensures GraphInv(Example(), Graph()) && Graph().nodes == [PARAMETER, ADDED, LOSS] && Graph().leafs == [INPUT]
  {
    ExampleOk();
    LossVisit(Example(), EMPTY_STATE);
    EmptyInv(Example(), [0, 0, 1, 2]);
    VisitInv(Example(), LeftToRight, EMPTY_STATE, LOSS, true);
  }

  lemma EmptyInv(p: Pool, rank: seq<nat>)
    requires WellFormed(p) && Acyclic(p, rank)
    ensures GraphInv(p, EMPTY_STATE)
  {
  }

  // ---- its gradients -----------------------------------------------------------------------------

  lemma AllNeeded(nodes: seq<Id>)
    requires nodes == [PARAMETER, ADDED, LOSS]
    ensures InPool(Example(), nodes) && Needed(Example(), nodes, |nodes|) == {PARAMETER, ADDED, LOSS}
  {
    var p := Example();
    assert Needed(p, nodes, 0) == {};
    assert Needed(p, nodes, 1) == {PARAMETER};
    assert p[ADDED].src[1].value in Needed(p, nodes, 1);
    assert Needed(p, nodes, 2) == {PARAMETER, ADDED};
  }

  lemma LossSeeded(s: State)
    requires s.nodes == [PARAMETER, ADDED, LOSS]
    ensures Served(Example(), s.nodes) && WellFormed(Example())
    ensures Seeded(Example(), s) == Tape(Example() + [Tensor(NoOp, [], 1)], s, map[LOSS := |Example()|], map[LOSS := |Example()|])
  {
    ExampleOk();
    var b := Tape(Example(), s, map[], map[]);
    assert SeedLosses(b, s.nodes, 0) == b;
    assert SeedLosses(b, s.nodes, 1) == b;
    assert SeedLosses(b, s.nodes, 2) == b;
  }

  lemma LossServed(o: Order, b: Tape, needed: set<Id>, g: Id) returns (c: Tape)
    requires TapeOk(b) && b.grads == map[LOSS := g] && ADDED in needed && LOSS < |b.p| && Shaped(b.p, LOSS)
    requires b.p[LOSS].op == Sum && b.p[LOSS].src == [Some(ADDED)] && b.p[ADDED].ne == 2
    ensures c == ComputeBackward(o, b, LOSS, needed) && c.accs == b.accs
    ensures c.p == b.p + [Unary(Repeat, g, 2)] && PARAMETER !in c.grads && ADDED in c.grads && c.grads[ADDED] == |b.p|
  {
    c := ComputeBackward(o, b, LOSS, needed);
  }

  // The loss hands its gradient to every entry of the sum's operand.
  lemma LossRound(o: Order, b: Tape, nodes: seq<Id>, k: nat, needed: set<Id>, g: Id) returns (c: Tape)
    requires nodes == [PARAMETER, ADDED, LOSS] && k == 3 && LoopOk(b, nodes, needed) && b.grads == map[LOSS := g] && ADDED in needed && LOSS in needed
    requires LOSS < |b.p| && b.p[LOSS].op == Sum && b.p[LOSS].src == [Some(ADDED)] && b.p[ADDED].ne == 2
    ensures c.accs == b.accs && LoopOk(c, nodes, needed) && BackwardLoop(o, b, nodes, k, needed) == BackwardLoop(o, c, nodes, k - 1, needed)
    ensures c.p == b.p + [Unary(Repeat, g, 2)] && PARAMETER !in c.grads && ADDED in c.grads && c.grads[ADDED] == |b.p|
  {
    assert nodes[2] == LOSS && Shaped(b.p, nodes[2]);
    hide ComputeBackward;
    c := LossServed(o, b, needed, g);
    LoopUnfold(o, b, nodes, k, needed);
  }

  // The mean is all that reaches the parameter.
  lemma AddedRound(o: Order, b: Tape, nodes: seq<Id>, k: nat, needed: set<Id>, g: Id) returns (c: Tape)
    requires nodes == [PARAMETER, ADDED, LOSS] && k == 2 && LoopOk(b, nodes, needed) && PARAMETER !in b.grads && ADDED in b.grads && b.grads[ADDED] == g
    requires ADDED < |b.p| && b.p[ADDED].op == Add1 && b.p[ADDED].src == [Some(INPUT), Some(PARAMETER)] && PARAMETER in needed && INPUT !in needed
    ensures c.accs == b.accs && LoopOk(c, nodes, needed) && BackwardLoop(o, b, nodes, k, needed) == BackwardLoop(o, c, nodes, k - 1, needed)
    ensures c.p == b.p + [Unary(Mean, g, 1)] && PARAMETER in c.grads && c.grads[PARAMETER] == |b.p|
  {
    assert nodes[1] == ADDED && Shaped(b.p, nodes[1]);
    LoopUnfold(o, b, nodes, k, needed);
    c := ComputeBackward(o, b, ADDED, needed);
  }

  lemma ParameterRound(o: Order, b: Tape, nodes: seq<Id>, k: nat, needed: set<Id>)
    requires nodes == [PARAMETER, ADDED, LOSS] && k == 1 && LoopOk(b, nodes, needed) && PARAMETER < |b.p| && b.p[PARAMETER].op == NoOp
    ensures BackwardLoop(o, b, nodes, k, needed) == b
  {
    LoopUnfold(o, b, nodes, k, needed);
    assert ComputeBackward(o, b, PARAMETER, needed) == b;
    assert BackwardLoop(o, b, nodes, 0, needed) == b;
  }

  lemma Rounds(o: Order, b: Tape, nodes: seq<Id>, needed: set<Id>, g: Id) returns (d: Tape)
    requires |b.p| > LOSS && nodes == [PARAMETER, ADDED, LOSS] && LoopOk(b, nodes, needed) && b.grads == map[LOSS := g]
    requires b.p[LOSS].op == Sum && b.p[LOSS].src == [Some(ADDED)] && b.p[ADDED].ne == 2 && b.p[PARAMETER].op == NoOp
    requires b.p[ADDED].op == Add1 && b.p[ADDED].src == [Some(INPUT), Some(PARAMETER)]
    requires needed == {PARAMETER, ADDED, LOSS}
    ensures d == BackwardLoop(o, b, nodes, |nodes|, needed) && d.accs == b.accs
    ensures d.p == b.p + [Unary(Repeat, g, 2), Unary(Mean, |b.p|, 1)] && PARAMETER in d.grads && d.grads[PARAMETER] == |b.p| + 1
  {
    hide ComputeBackward, TapeOk;
    var c := LossRound(o, b, nodes, 3, needed, g);
    d := AddedRound(o, c, nodes, 2, needed, |b.p|);
    ParameterRound(o, d, nodes, 1, needed);
  }

  lemma GradientLeft(o: Order, s: State)
    requires s.nodes == [PARAMETER, ADDED, LOSS]
    ensures Served(Example(), s.nodes) && WellFormed(Example())
    ensures var b, n := BuildBackward(o, Example(), s), |Example()|; b.p == Example() + [Tensor(NoOp, [], 1), Unary(Repeat, n, 2), Unary(Mean, n + 1, 1)] && b.accs == map[LOSS := n] && PARAMETER in b.grads && b.grads[PARAMETER] == n + 2
  {
    hide BackwardLoop, Needed, Served;
    ExampleOk();
    AllNeeded(s.nodes);
    LossSeeded(s);
    var d := Rounds(o, Seeded(Example(), s), s.nodes, Needed(Example(), s.nodes, |s.nodes|), |Example()|);
  }

  // ---- its value -----------------------------------------------------------------------------------

  lemma TwoEntries(v: Vec)
    requires |v| == 2
    ensures Total(v, |v|) == At(v, 0) + At(v, 1)
  {
    assert Total(v, 2) == Total(v, 1) + At(v, 1);
    assert Total(v, 1) == Total(v, 0) + At(v, 0);
  }

  lemma GradientIsOne(e: Elementary, b: Tape, val: seq<Vec>, n: Id)
    requires GradientValues(e, b, val) && n == |Example()|
    requires b.p == Example() + [Tensor(NoOp, [], 1), Unary(Repeat, n, 2), Unary(Mean, n + 1, 1)] && b.accs == map[LOSS := n]
    ensures n + 2 < |val| && At(val[n + 2], 0) == 1.0
  {
    assert LOSS in b.accs;
    assert b.p[n + 1] == Unary(Repeat, n, 2) && b.p[n + 2] == Unary(Mean, n + 1, 1) && b.p[n].ne == 1;
    assert Computed(e, b.p, val, n + 1) && Computed(e, b.p, val, n + 2);
    assert Shaped(b.p, n + 1) && Shaped(b.p, n + 2);
    TwoEntries(val[n + 1]);
  }

  // The loss grows twice as fast as the parameter.
  lemma LossValue(e: Elementary, s: State, w: Family, h: real)
    requires s.nodes == [PARAMETER, ADDED, LOSS] && s.leafs == [INPUT] && Moving(e, Example(), s, w, PARAMETER, 0)
    ensures EntryAt(w(h), LOSS, 0) == EntryAt(w(0.0), LOSS, 0) + 2.0 * h
  {
    LossEntry(e, s, w, h);
    LossEntry(e, s, w, 0.0);
    assert Member(e, Example(), s, w(0.0), w(h), PARAMETER, 0, h);
    assert Visited(s, INPUT) && Visited(s, PARAMETER) by { assert s.nodes[0] == PARAMETER && s.leafs[0] == INPUT; }
    assert EntryAt(w(h), INPUT, 0) == EntryAt(w(0.0), INPUT, 0);
    assert EntryAt(w(h), INPUT, 1) == EntryAt(w(0.0), INPUT, 1);
    assert EntryAt(w(h), PARAMETER, 0) == EntryAt(w(0.0), PARAMETER, 0) + h;
  }

  lemma LossEntry(e: Elementary, s: State, w: Family, h: real)
    requires s.nodes == [PARAMETER, ADDED, LOSS] && Moving(e, Example(), s, w, PARAMETER, 0)
    ensures EntryAt(w(h), LOSS, 0) == EntryAt(w(h), INPUT, 0) + EntryAt(w(h), INPUT, 1) + 2.0 * EntryAt(w(h), PARAMETER, 0)
  {
    var p, val := Example(), w(h);
    assert Member(e, p, s, w(0.0), val, PARAMETER, 0, h);
    assert s.nodes[1] == ADDED && s.nodes[2] == LOSS;
    assert Computed(e, p, val, ADDED) && Computed(e, p, val, LOSS);
    assert Shaped(p, ADDED) && Shaped(p, LOSS);
    TwoEntries(val[ADDED]);
  }

  lemma LossSlope(e: Elementary, s: State, w: Family)
    requires s.nodes == [PARAMETER, ADDED, LOSS] && s.leafs == [INPUT] && Moving(e, Example(), s, w, PARAMETER, 0)
    ensures Derivative(LossOf(Example(), s.nodes, w, |s.nodes|), 2.0)
  {
    var f := LossOf(Example(), s.nodes, w, |s.nodes|);
    forall h | -1.0 <= h <= 1.0 ensures Close(f, 2.0, 0.0, h) {
      LossIsEntry(s.nodes, w(h));
      LossIsEntry(s.nodes, w(0.0));
      LossValue(e, s, w, h);
    }
    assert Within(f, 2.0, 0.0, 1.0);
  }

  lemma LossIsEntry(nodes: seq<Id>, val: seq<Vec>)
    requires nodes == [PARAMETER, ADDED, LOSS]
    ensures LossSum(Example(), nodes, val, |nodes|) == EntryAt(val, LOSS, 0)
  {
    assert LossSum(Example(), nodes, val, 0) == 0.0;
    assert LossSum(Example(), nodes, val, 1) == 0.0;
    assert LossSum(Example(), nodes, val, 2) == 0.0;
  }

  // Such values exist: the constant is zero and the parameter moves through zero.
  function Line(h: real): seq<Vec> {
    [[0.0, 0.0], [h], [h, h], [2.0 * h]]
  }

  lemma LineComputed(e: Elementary, h: real)
    ensures Sized(Example(), Line(h)) && Computed(e, Example(), Line(h), ADDED) && Computed(e, Example(), Line(h), LOSS)
  {
    TwoEntries([h, h]);
  }

  lemma LineMoves(e: Elementary, s: State)
    requires s.nodes == [PARAMETER, ADDED, LOSS] && s.leafs == [INPUT]
    ensures Moving(e, Example(), s, Line, PARAMETER, 0)
  {
    var p := Example();
    forall h ensures Member(e, p, s, Line(0.0), Line(h), PARAMETER, 0, h) {
      LineComputed(e, 0.0);
      LineComputed(e, h);
    }
    forall n: Id | n in s.nodes && n < |p| ensures SmoothNode(p, Line(0.0), n) {
    }
  }

  lemma OnlySlope(f: real -> real, d: real)
    requires Derivative(f, 2.0) && d == 1.0
    ensures !Derivative(f, d)
  {
    if Derivative(f, d) { DerivativeUnique(f, 2.0, d); }
  }

  lemma LeavesOne(o: Order, e: Elementary, s: State, val: seq<Vec>)
    requires s.nodes == [PARAMETER, ADDED, LOSS] && Served(Example(), s.nodes) && WellFormed(Example())
    requires GradientValues(e, BuildBackward(o, Example(), s), val)
    ensures var g := BuildBackward(o, Example(), s).grads; PARAMETER in g && g[PARAMETER] < |val| && At(val[g[PARAMETER]], 0) == 1.0
  {
    GradientLeft(o, s);
    GradientIsOne(e, BuildBackward(o, Example(), s), val, |Example()|);
  }

  // On the graph that forward expansion builds: the gradient left for the parameter is one, the
  // derivative of the loss is two.
  lemma Add1GradientWrong(o: Order, e: Elementary, s: State, val: seq<Vec>, w: Family)
    requires s == Graph() && Served(Example(), s.nodes) && WellFormed(Example())
    requires GradientValues(e, BuildBackward(o, Example(), s), val) && Moving(e, Example(), s, w, PARAMETER, 0)
    ensures var g := BuildBackward(o, Example(), s).grads; PARAMETER in g && g[PARAMETER] < |val| && At(val[g[PARAMETER]], 0) == 1.0 && Derivative(LossOf(Example(), s.nodes, w, |s.nodes|), 2.0) && !Derivative(LossOf(Example(), s.nodes, w, |s.nodes|), At(val[g[PARAMETER]], 0))
  {
    GraphNodes();
    LeavesOne(o, e, s, val);
    LossSlope(e, s, w);
    OnlySlope(LossOf(Example(), s.nodes, w, |s.nodes|), At(val[BuildBackward(o, Example(), s).grads[PARAMETER]], 0));
  }
}
