// Every run of allocations, expansions and selections on one graph.
module GraphRuns {
  import opened Options
  import opened Tensors
  import opened GraphBuild
  import opened GraphFacts
  import opened GraphFlags

  datatype Config = Config(p: Pool, s: State)

  datatype Command =
    | Alloc(t: Tensor)
    | Expand(n: Id)
    | Select(ns: seq<Id>, idx: nat)

  const EMPTY_STATE := State([], [], map[], {})

  ghost predicate ExactUses(p: Pool, s: State) {
    forall x :: Uses(s, x) == Refs(p, s.nodes, x)
  }

  // What holds of a graph between calls.
  ghost predicate GraphInv(p: Pool, s: State) {
    && WellFormed(p) && (exists rank :: Acyclic(p, rank))
    && Built(p, s, {}) && ExactUses(p, s)
  }

  // A new tensor names existing operands, or itself.
  predicate Allocatable(p: Pool, t: Tensor) {
    forall k :: 0 <= k < |t.src| && t.src[k].Some? ==> t.op != NoOp && t.src[k].value <= |p|
  }

  predicate InPool(p: Pool, ns: seq<Id>) {
    forall k :: 0 <= k < |ns| ==> ns[k] < |p|
  }

  predicate Allowed(c: Config, cmd: Command) {
    match cmd
    case Alloc(t) => Allocatable(c.p, t)
    case Expand(n) => n < |c.p|
    case Select(ns, idx) => idx < |ns| && InPool(c.p, ns)
  }

  ghost function SelectFrom(p: Pool, o: Order, s: State, ns: seq<Id>, idx: nat, i: nat): State
    requires WellFormed(p) && i <= |ns| && InPool(p, ns)
    decreases |ns| - i
  {
    if i == |ns| then s else SelectFrom(p, o, Visit(p, o, s, ns[i], i == idx), ns, idx, i + 1)
  }

  ghost function Do(o: Order, c: Config, cmd: Command): Config
    requires WellFormed(c.p) && Allowed(c, cmd)
  {
    match cmd
    case Alloc(t) => c.(p := c.p + [t])
    case Expand(n) => c.(s := Visit(c.p, o, c.s, n, true))
    case Select(ns, idx) => c.(s := SelectFrom(c.p, o, c.s, ns, idx, 0))
  }

  lemma DoWellFormed(o: Order, c: Config, cmd: Command)
    requires WellFormed(c.p) && Allowed(c, cmd)
    ensures WellFormed(Do(o, c, cmd).p)
  {
  }

  ghost predicate CanRun(o: Order, c: Config, cmds: seq<Command>)
    requires WellFormed(c.p)
    decreases |cmds|
  {
    cmds == [] || (Allowed(c, cmds[0]) && (DoWellFormed(o, c, cmds[0]); CanRun(o, Do(o, c, cmds[0]), cmds[1..])))
  }

  ghost function Run(o: Order, c: Config, cmds: seq<Command>): Config
    requires WellFormed(c.p) && CanRun(o, c, cmds)
    decreases |cmds|
  {
    if cmds == [] then c else
      DoWellFormed(o, c, cmds[0]);
      Run(o, Do(o, c, cmds[0]), cmds[1..])
  }

  // The tensors that were expanded or selected for computation.
  function Roots(cmds: seq<Command>): set<Id> {
    if cmds == [] then {} else
      (match cmds[0]
       case Alloc(_) => {}
       case Expand(n) => {n}
       case Select(ns, idx) => if idx < |ns| then {ns[idx]} else {})
      + Roots(cmds[1..])
  }

  // ---- one command -------------------------------------------------------------------

  lemma VisitInv(p: Pool, o: Order, s: State, n: Id, compute: bool)
    requires GraphInv(p, s) && n < |p|
    ensures GraphInv(p, Visit(p, o, s, n, compute))
    ensures s.nodes <= Visit(p, o, s, n, compute).nodes
    ensures n !in s.uses ==> EndsWith(p, s, Visit(p, o, s, n, compute), n)
    ensures n in s.uses ==> Visit(p, o, s, n, compute).nodes == s.nodes
  {
    var rank :| Acyclic(p, rank);
    VisitBuilds(p, o, rank, s, n, compute, {});
    AdvancesExactly(p, s, Visit(p, o, s, n, compute));
    if n in s.uses { RevisitKeepsNodes(p, o, s, n, compute); }
  }

  lemma AdvancesExactly(p: Pool, s: State, t: State)
    requires ExactUses(p, s) && Advances(p, s, t, multiset{})
    ensures ExactUses(p, t)
  {
    assert t.nodes == s.nodes + t.nodes[|s.nodes|..];
    forall x ensures Uses(t, x) == Refs(p, t.nodes, x) {
      RefsConcat(p, s.nodes, t.nodes[|s.nodes|..], x);
    }
  }

  lemma RevisitKeepsNodes(p: Pool, o: Order, s: State, n: Id, compute: bool)
    requires WellFormed(p) && Built(p, s, {}) && n < |p| && n in s.uses
    ensures Visit(p, o, s, n, compute).nodes == s.nodes
  {
    if compute {
      assert Built(p, Mark(p, s, n, compute), {});
      RevisitAddsNothing(p, o, Mark(p, s, n, compute), n, 0);
    }
  }

  // Pushing the flag through a closed visited set records nothing new.
  lemma {:induction false} RevisitAddsNothing(p: Pool, o: Order, s: State, n: Id, i: nat)
    requires WellFormed(p) && Built(p, s, {}) && n < |p| && i <= |p[n].src| && n in s.uses
    ensures var t := Reflag(p, o, s, n, i);
            t.nodes == s.nodes && t.leafs == s.leafs && t.uses == s.uses
    decreases Left(p, s), FlagRank(p, n), |p[n].src| - i
  {
    if i < |p[n].src| {
      var x := p[n].src[i];
      if x == None || x.value in s.flags {
        RevisitAddsNothing(p, o, s, n, i + 1);
      } else {
        SourceVisited(p, s, n, x.value);
        MarkLeft(p, s, x.value, true);
        var m := Mark(p, s, x.value, true);
        assert Built(p, m, {});
        RevisitAddsNothing(p, o, m, x.value, 0);
        var v := Visit(p, o, s, x.value, true);
        assert Built(p, v, {});
        RevisitAddsNothing(p, o, v, n, i + 1);
      }
    }
  }

  lemma SourceVisited(p: Pool, s: State, n: Id, x: Id)
    requires WellFormed(p) && Built(p, s, {}) && n < |p| && n in s.uses && IsSource(p, n, x)
    ensures x in s.uses
  {
    if n in s.leafs {
      assert false;
    } else {
      var i :| 0 <= i < |s.nodes| && s.nodes[i] == n;
      assert x == s.nodes[i] || x in s.leafs || x in s.nodes[..i];
    }
  }

  lemma {:induction false} SelectInv(p: Pool, o: Order, s: State, ns: seq<Id>, idx: nat, i: nat)
    requires GraphInv(p, s) && i <= |ns| && InPool(p, ns)
    ensures GraphInv(p, SelectFrom(p, o, s, ns, idx, i))
    decreases |ns| - i
  {
    if i < |ns| {
      VisitInv(p, o, s, ns[i], i == idx);
      SelectInv(p, o, Visit(p, o, s, ns[i], i == idx), ns, idx, i + 1);
    }
  }

  lemma {:induction false} RefsExtend(p: Pool, t: Tensor, list: seq<Id>, x: Id)
    requires forall n :: n in list ==> n < |p|
    ensures Refs(p + [t], list, x) == Refs(p, list, x)
  {
    if list != [] {
      assert list[0] in list;
      assert forall n :: n in list[1..] ==> n in list;
      RefsExtend(p, t, list[1..], x);
    }
  }

  lemma AllocInv(p: Pool, s: State, t: Tensor)
    requires GraphInv(p, s) && Allocatable(p, t)
    ensures GraphInv(p + [t], s)
  {
    var rank :| Acyclic(p, rank);
    var top := MaxOf(rank) + 1;
    assert Acyclic(p + [t], rank + [top]);
    forall x ensures Uses(s, x) == Refs(p + [t], s.nodes, x) {
      RefsExtend(p, t, s.nodes, x);
    }
    forall i, x | 0 <= i < |s.nodes| && s.nodes[i] < |p + [t]| && IsSource(p + [t], s.nodes[i], x)
      ensures x == s.nodes[i] || x in s.leafs || x in s.nodes[..i]
    {
      assert s.nodes[i] in s.nodes;
      assert IsSource(p, s.nodes[i], x);
    }
    assert Built(p + [t], s, {});
  }

  ghost function MaxOf(r: seq<nat>): (m: nat)
    ensures forall i :: 0 <= i < |r| ==> r[i] <= m
  {
    if r == [] then 0 else
      var m := MaxOf(r[..|r| - 1]);
      assert forall i :: 0 <= i < |r| - 1 ==> r[i] == r[..|r| - 1][i];
      if m < r[|r| - 1] then r[|r| - 1] else m
  }

  lemma DoInv(o: Order, c: Config, cmd: Command)
    requires GraphInv(c.p, c.s) && Allowed(c, cmd)
    ensures var d := Do(o, c, cmd); GraphInv(d.p, d.s)
  {
    match cmd
    case Alloc(t) => AllocInv(c.p, c.s, t);
    case Expand(n) => VisitInv(c.p, o, c.s, n, true);
    case Select(ns, idx) => SelectInv(c.p, o, c.s, ns, idx, 0);
  }

  // ---- whole runs: order and use counts -----------------------------------------------

  lemma {:induction false} RunInv(o: Order, c: Config, cmds: seq<Command>)
    requires GraphInv(c.p, c.s) && CanRun(o, c, cmds)
    ensures var d := Run(o, c, cmds); GraphInv(d.p, d.s)
    decreases |cmds|
  {
    if cmds != [] {
      DoInv(o, c, cmds[0]);
      RunInv(o, Do(o, c, cmds[0]), cmds[1..]);
    }
  }

  // After any run on a new graph: no tensor is recorded twice, operands come first,
  // and each use count is the number of visited slots naming the tensor.
  lemma BuildOrder(o: Order, p: Pool, flags: set<Id>, cmds: seq<Command>)
    requires WellFormed(p) && exists rank :: Acyclic(p, rank)
    requires CanRun(o, Config(p, EMPTY_STATE.(flags := flags)), cmds)
    ensures var d := Run(o, Config(p, EMPTY_STATE.(flags := flags)), cmds);
            && NoDup(d.s.nodes + d.s.leafs)
            && (forall x :: x in d.s.uses <==> x in d.s.nodes + d.s.leafs)
            && (forall x :: x in d.s.nodes ==> x < |d.p| && (d.p[x].op != NoOp || d.p[x].param))
            && (forall x :: x in d.s.leafs ==> x < |d.p| && d.p[x].op == NoOp && !d.p[x].param)
            && (forall i, x :: 0 <= i < |d.s.nodes| && d.s.nodes[i] < |d.p| && IsSource(d.p, d.s.nodes[i], x) ==>
                  x == d.s.nodes[i] || x in d.s.leafs || x in d.s.nodes[..i])
            && (forall x :: x in d.s.uses ==> d.s.uses[x] == Refs(d.p, d.s.nodes, x))
  {
    var c := Config(p, EMPTY_STATE.(flags := flags));
    RunInv(o, c, cmds);
    var d := Run(o, c, cmds);
    forall i, j | 0 <= i < j < |d.s.nodes + d.s.leafs|
      ensures (d.s.nodes + d.s.leafs)[i] != (d.s.nodes + d.s.leafs)[j]
    {
      if i < |d.s.nodes| <= j {
        assert d.s.nodes[i] in d.s.nodes && d.s.leafs[j - |d.s.nodes|] in d.s.leafs;
      }
    }
    forall x | x in d.s.uses ensures d.s.uses[x] == Refs(d.p, d.s.nodes, x) {
      assert Uses(d.s, x) == d.s.uses[x];
    }
  }

  // ---- whole runs: flags ---------------------------------------------------------------

  ghost predicate FlagsValid(c: Config) {
    WellFormed(c.p) && ClosedExcept(c.p, c.s.flags, {}) && forall x :: x in c.s.flags ==> x < |c.p|
  }

  ghost predicate FlaggedBy(p: Pool, flags: set<Id>, roots: set<Id>, x: Id) {
    x in flags || (x < |p| && p[x].op != NoOp && exists r :: r in roots && Ancestor(p, r, x))
  }

  lemma {:induction false} SelectFlags(p: Pool, o: Order, s: State, ns: seq<Id>, idx: nat, i: nat, x: Id)
    requires FlagsValid(Config(p, s)) && i <= |ns| && idx < |ns| && InPool(p, ns)
    ensures FlagsValid(Config(p, SelectFrom(p, o, s, ns, idx, i)))
    ensures x in SelectFrom(p, o, s, ns, idx, i).flags <==>
              x in s.flags || (i <= idx && x < |p| && p[x].op != NoOp && Ancestor(p, ns[idx], x))
    decreases |ns| - i
  {
    if i < |ns| {
      var v := Visit(p, o, s, ns[i], i == idx);
      if i == idx {
        ExpandFlagsExactly(p, o, s, ns[i], x);
        VisitFlagsAncestors(p, o, s, ns[i]);
      } else {
        VisitKeepsFlags(p, o, s, ns[i]);
      }
      SelectFlags(p, o, v, ns, idx, i + 1, x);
    }
  }

  // Paths from old tensors stay among old tensors.
  lemma {:induction false} PathExtend(p: Pool, t: Tensor, path: seq<Id>)
    requires WellFormed(p) && Path(p + [t], path) && path[0] < |p|
    ensures Path(p, path)
    decreases |path|
  {
    if |path| > 1 {
      var q := p + [t];
      assert IsSource(q, path[0], path[1]);
      var k :| 0 <= k < |q[path[0]].src| && q[path[0]].src[k] == Some(path[1]);
      assert p[path[0]].src[k] == Some(path[1]);
      forall i | 0 < i < |path[1..]| ensures IsSource(q, path[1..][i - 1], path[1..][i]) {
        assert IsSource(q, path[i], path[i + 1]);
      }
      PathExtend(p, t, path[1..]);
      forall i | 0 < i < |path| ensures IsSource(p, path[i - 1], path[i]) {
        if i > 1 { assert path[1..][i - 2] == path[i - 1] && path[1..][i - 1] == path[i]; }
      }
    }
  }

  lemma AncestorExtend(p: Pool, t: Tensor, r: Id, x: Id)
    requires WellFormed(p) && r < |p|
    ensures Ancestor(p + [t], r, x) <==> Ancestor(p, r, x)
    ensures Ancestor(p, r, x) ==> x < |p|
  {
    var q := p + [t];
    if Ancestor(q, r, x) {
      var path :| Path(q, path) && path[0] == r && path[|path| - 1] == x;
      PathExtend(p, t, path);
    }
    if Ancestor(p, r, x) {
      var path :| Path(p, path) && path[0] == r && path[|path| - 1] == x;
      assert forall n: Id, y: Id :: n < |p| ==> (IsSource(q, n, y) <==> IsSource(p, n, y));
      assert Path(q, path);
    }
  }

  lemma DoFlags(o: Order, c: Config, cmd: Command, x: Id)
    requires FlagsValid(c) && Allowed(c, cmd)
    ensures FlagsValid(Do(o, c, cmd))
    ensures var d := Do(o, c, cmd); x in d.s.flags <==> FlaggedBy(d.p, c.s.flags, Roots([cmd]), x)
  {
    assert [cmd][1..] == [];
    match cmd
    case Alloc(t) =>
      assert forall n: Id, y: Id :: n < |c.p| ==> (IsSource(c.p + [t], n, y) <==> IsSource(c.p, n, y));
    case Expand(n) =>
      ExpandFlagsExactly(c.p, o, c.s, n, x);
      VisitFlagsAncestors(c.p, o, c.s, n);
    case Select(ns, idx) =>
      SelectFlags(c.p, o, c.s, ns, idx, 0, x);
  }

  // The pool only grows, and the ancestors of a root do not change as it does.
  lemma {:induction false} RunAncestors(o: Order, c: Config, cmds: seq<Command>, r: Id, x: Id)
    requires WellFormed(c.p) && CanRun(o, c, cmds) && r < |c.p|
    ensures |c.p| <= |Run(o, c, cmds).p|
    ensures x < |c.p| ==> Run(o, c, cmds).p[x] == c.p[x]
    ensures Ancestor(Run(o, c, cmds).p, r, x) <==> Ancestor(c.p, r, x)
    ensures Ancestor(c.p, r, x) ==> x < |c.p|
    decreases |cmds|
  {
    if cmds == [] {
      if Ancestor(c.p, r, x) {
        var path :| Path(c.p, path) && path[0] == r && path[|path| - 1] == x;
      }
    } else {
      if cmds[0].Alloc? {
        AncestorExtend(c.p, cmds[0].t, r, x);
      }
      DoWellFormed(o, c, cmds[0]);
      RunAncestors(o, Do(o, c, cmds[0]), cmds[1..], r, x);
    }
  }

  // Over any run from closed flags, a tensor ends up flagged exactly when it was flagged
  // before or is an operation among the ancestors of a tensor chosen for computation.
  lemma {:induction false} RunFlags(o: Order, c: Config, cmds: seq<Command>, x: Id)
    requires FlagsValid(c) && CanRun(o, c, cmds)
    ensures FlagsValid(Run(o, c, cmds))
    ensures x in Run(o, c, cmds).s.flags <==> FlaggedBy(Run(o, c, cmds).p, c.s.flags, Roots(cmds), x)
    decreases |cmds|
  {
    if cmds != [] {
      var d := Do(o, c, cmds[0]);
      DoFlags(o, c, cmds[0], x);
      RunFlags(o, d, cmds[1..], x);
      assert Roots(cmds) == Roots([cmds[0]]) + Roots(cmds[1..]);
      forall r | r in Roots([cmds[0]])
        ensures r < |d.p|
        ensures Ancestor(Run(o, c, cmds).p, r, x) <==> Ancestor(d.p, r, x)
        ensures Ancestor(d.p, r, x) ==> x < |d.p| && Run(o, c, cmds).p[x] == d.p[x]
      {
        RunAncestors(o, d, cmds[1..], r, x);
      }
    }
  }
}
