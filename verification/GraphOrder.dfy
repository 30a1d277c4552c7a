// What an expansion records: exactly the root's ancestors, in evaluation order.
module GraphOrder {
  import opened Options
  import opened Tensors
  import opened GraphBuild
  import opened GraphFacts
  import opened GraphFlags
  import opened GraphRuns

  // ---- nothing but ancestors -----------------------------------------------------------------------

  ghost predicate VisitedWithin(p: Pool, s: State, t: State, n: Id) {
    forall x :: x in t.uses ==> x in s.uses || Ancestor(p, n, x)
  }

  lemma ReachStep(p: Pool, s: State, v: State, t: State, n: Id, x: Id)
    requires n < |p| && IsSource(p, n, x) && VisitedWithin(p, s, v, x) && VisitedWithin(p, v, t, n)
    ensures VisitedWithin(p, s, t, n)
  {
    forall y | y in v.uses && y !in s.uses ensures Ancestor(p, n, y) {
      AncestorStep(p, n, x, y);
    }
  }

  lemma {:induction false} VisitReaches(p: Pool, o: Order, s: State, n: Id, compute: bool)
    requires WellFormed(p) && n < |p|
    ensures VisitedWithin(p, s, Visit(p, o, s, n, compute), n)
    decreases Left(p, s), VisitRank(p, s, n), 0
  {
    MarkLeft(p, s, n, compute);
    AncestorSelf(p, n);
    if n in s.uses {
      if compute { ReflagReaches(p, o, Mark(p, s, n, compute), n, 0); }
    } else {
      SourcesReach(p, o, Open(p, s, n, compute), n, 0, compute);
    }
  }

  lemma {:induction false} SourcesReach(p: Pool, o: Order, s: State, n: Id, i: nat, compute: bool)
    requires WellFormed(p) && n < |p| && i <= |p[n].src|
    ensures VisitedWithin(p, s, VisitSources(p, o, s, n, i, compute), n)
    decreases Left(p, s), 4, |p[n].src| - i
  {
    if i < |p[n].src| {
      var x := SlotAt(o, p[n].src, i);
      if x == None {
        SourcesReach(p, o, s, n, i + 1, compute);
      } else {
        VisitReaches(p, o, s, x.value, compute);
        var v := Visit(p, o, s, x.value, compute);
        GrowsLeft(p, v, CountUse(v, x.value));
        SourcesReach(p, o, CountUse(v, x.value), n, i + 1, compute);
        assert IsSource(p, n, x.value);
        ReachStep(p, s, CountUse(v, x.value), VisitSources(p, o, s, n, i, compute), n, x.value);
      }
    }
  }

  lemma {:induction false} ReflagReaches(p: Pool, o: Order, s: State, n: Id, i: nat)
    requires WellFormed(p) && n < |p| && i <= |p[n].src|
    ensures VisitedWithin(p, s, Reflag(p, o, s, n, i), n)
    decreases Left(p, s), FlagRank(p, n), |p[n].src| - i
  {
    if i < |p[n].src| {
      var x := p[n].src[i];
      if x == None || x.value in s.flags {
        ReflagReaches(p, o, s, n, i + 1);
      } else {
        VisitReaches(p, o, s, x.value, true);
        var v := Visit(p, o, s, x.value, true);
        ReflagReaches(p, o, v, n, i + 1);
        assert IsSource(p, n, x.value);
        ReachStep(p, s, v, Reflag(p, o, s, n, i), n, x.value);
      }
    }
  }

  // ---- and all of them -----------------------------------------------------------------------------

  lemma {:induction false} PathVisited(p: Pool, s: State, path: seq<Id>)
    requires WellFormed(p) && Built(p, s, {}) && Path(p, path) && path[0] in s.uses
    ensures path[|path| - 1] in s.uses
    decreases |path|
  {
    if |path| > 1 {
      PathTail(p, path);
      SourceVisited(p, s, path[0], path[1]);
      PathVisited(p, s, path[1..]);
    }
  }

  // A graph that is well built records what it had and the ancestors of the root, no more.
  lemma VisitsExactly(p: Pool, o: Order, s: State, n: Id, compute: bool, x: Id)
    requires GraphInv(p, s) && n < |p|
    ensures var t := Visit(p, o, s, n, compute); x in t.nodes || x in t.leafs <==> x in s.nodes || x in s.leafs || Ancestor(p, n, x)
  {
    var t := Visit(p, o, s, n, compute);
    VisitInv(p, o, s, n, compute);
    VisitReaches(p, o, s, n, compute);
    if Ancestor(p, n, x) {
      var path :| Path(p, path) && path[0] == n && path[|path| - 1] == x;
      PathVisited(p, t, path);
    }
    assert x in s.uses <==> x in s.nodes || x in s.leafs;
    assert x in t.uses <==> x in t.nodes || x in t.leafs;
    assert x in s.uses ==> x in t.uses;
  }

  // ---- whole runs ------------------------------------------------------------------------------------

  // Everything that was expanded, and every alternative of a selection.
  function AllRoots(cmds: seq<Command>): set<Id> {
    if cmds == [] then {} else
      (match cmds[0]
       case Alloc(_) => {}
       case Expand(n) => {n}
       case Select(ns, _) => set k | 0 <= k < |ns| :: ns[k])
      + AllRoots(cmds[1..])
  }

  predicate Recorded(s: State, x: Id) {
    x in s.nodes || x in s.leafs
  }

  ghost predicate RecordedBy(p: Pool, s: State, roots: set<Id>, x: Id) {
    Recorded(s, x) || exists r :: r in roots && Ancestor(p, r, x)
  }

  lemma {:induction false} SelectRecords(p: Pool, o: Order, s: State, ns: seq<Id>, idx: nat, i: nat, x: Id)
    requires GraphInv(p, s) && i <= |ns| && InPool(p, ns)
    ensures Recorded(SelectFrom(p, o, s, ns, idx, i), x) <==> Recorded(s, x) || exists k :: i <= k < |ns| && Ancestor(p, ns[k], x)
    decreases |ns| - i
  {
    hide GraphInv, WellFormed, Visit;
    if i < |ns| {
      VisitInv(p, o, s, ns[i], i == idx);
      VisitsExactly(p, o, s, ns[i], i == idx, x);
      SelectRecords(p, o, Visit(p, o, s, ns[i], i == idx), ns, idx, i + 1, x);
    }
  }

  lemma DoRecords(o: Order, c: Config, cmd: Command, x: Id)
    requires GraphInv(c.p, c.s) && Allowed(c, cmd)
    ensures var d := Do(o, c, cmd); Recorded(d.s, x) <==> RecordedBy(d.p, c.s, AllRoots([cmd]), x)
  {
    assert [cmd][1..] == [];
    match cmd
    case Alloc(t) =>
    case Expand(n) => VisitsExactly(c.p, o, c.s, n, true, x);
    case Select(ns, idx) =>
      SelectRecords(c.p, o, c.s, ns, idx, 0, x);
      if k :| 0 <= k < |ns| && Ancestor(c.p, ns[k], x) { assert ns[k] in AllRoots([cmd]); }
  }

  lemma RootsInPool(o: Order, c: Config, cmd: Command, r: Id)
    requires WellFormed(c.p) && Allowed(c, cmd) && r in AllRoots([cmd])
    ensures r < |Do(o, c, cmd).p|
  {
    assert [cmd][1..] == [];
  }

  // After any run a graph records what it had and the ancestors of all roots, no more.
  lemma {:induction false} RunRecords(o: Order, c: Config, cmds: seq<Command>, x: Id)
    requires GraphInv(c.p, c.s) && CanRun(o, c, cmds)
    ensures var d := Run(o, c, cmds); Recorded(d.s, x) <==> RecordedBy(d.p, c.s, AllRoots(cmds), x)
    decreases |cmds|
  {
    if cmds != [] {
      var d := Do(o, c, cmds[0]);
      DoInv(o, c, cmds[0]);
      DoRecords(o, c, cmds[0], x);
      RunRecords(o, d, cmds[1..], x);
      assert [cmds[0]][1..] == [];
      assert AllRoots(cmds) == AllRoots([cmds[0]]) + AllRoots(cmds[1..]);
      forall r | r in AllRoots([cmds[0]]) ensures Ancestor(Run(o, c, cmds).p, r, x) <==> Ancestor(d.p, r, x) {
        RootsInPool(o, c, cmds[0], r);
        RunAncestors(o, d, cmds[1..], r, x);
      }
    }
  }

  // ---- evaluation order ----------------------------------------------------------------------------

  // Recorded, x before y.
  predicate Precedes(nodes: seq<Id>, x: Id, y: Id) {
    x in nodes && y in nodes && forall i, j :: 0 <= i < |nodes| && 0 <= j < |nodes| && nodes[i] == x && nodes[j] == y ==> i < j
  }

  // A node is recorded in u and another joins it later.
  lemma LaterPrecedes(p: Pool, u: State, t: State, x: Id, y: Id)
    requires u.nodes <= t.nodes && NoDup(t.nodes) && x in u.nodes && y !in u.nodes && y in t.nodes
    ensures Precedes(t.nodes, x, y)
  {
    var k :| 0 <= k < |u.nodes| && u.nodes[k] == x;
    assert forall m :: 0 <= m < |u.nodes| ==> t.nodes[m] == u.nodes[m];
    forall i, j | 0 <= i < |t.nodes| && 0 <= j < |t.nodes| && t.nodes[i] == x && t.nodes[j] == y ensures i < j {
      assert i == k;
    }
  }

  // y is met neither before slot k of n in evaluation order nor below that slot.
  ghost predicate Apart(p: Pool, o: Order, n: Id, i: nat, k: nat, y: Id)
    requires n < |p| && k < |p[n].src|
  {
    forall m :: i <= m <= k && SlotAt(o, p[n].src, m).Some? ==> !Ancestor(p, SlotAt(o, p[n].src, m).value, y)
  }

  // Visiting slot i, which y is not below.
  lemma SlotPassed(p: Pool, o: Order, rank: seq<nat>, s: State, n: Id, i: nat, compute: bool, open: set<Id>, y: Id) returns (c: State)
    requires WellFormed(p) && Acyclic(p, rank) && n < |p| && i < |p[n].src| && Built(p, s, open) && Above(rank, open, n) && n in open
    requires SlotAt(o, p[n].src, i).Some? && y !in s.uses && !Ancestor(p, SlotAt(o, p[n].src, i).value, y)
    ensures Built(p, c, open) && y !in c.uses && SlotAt(o, p[n].src, i).value in c.uses
    ensures VisitSources(p, o, s, n, i, compute) == VisitSources(p, o, c, n, i + 1, compute)
  {
    hide Built;
    var z := SlotAt(o, p[n].src, i).value;
    var v := Visit(p, o, s, z, compute);
    c := CountUse(v, z);
    AboveSource(p, o, rank, open, n, i);
    VisitBuilds(p, o, rank, s, z, compute, open);
    CountBuilds(p, s, v, z, open);
    VisitReaches(p, o, s, z, compute);
  }

  lemma VisitedNode(p: Pool, s: State, open: set<Id>, x: Id)
    requires Built(p, s, open) && x in s.uses && x !in open && x < |p| && !IsLeaf(p[x])
    ensures x in s.nodes
  {
  }

  // From slot i on: once slot k has been visited, x is recorded and y is not.
  lemma {:induction false} SlotsInOrder(p: Pool, o: Order, rank: seq<nat>, s: State, n: Id, i: nat, k: nat, compute: bool, open: set<Id>, x: Id, y: Id) returns (u: State)
    requires WellFormed(p) && Acyclic(p, rank) && n < |p| && i <= k < |p[n].src| && Built(p, s, open) && Above(rank, open, n) && n in open
    requires SlotAt(o, p[n].src, k) == Some(x) && x < |p| && !IsLeaf(p[x]) && x !in open && y !in s.uses && Apart(p, o, n, i, k, y)
    ensures x in u.nodes && y !in u.uses && Built(p, u, open) && u.nodes <= VisitSources(p, o, s, n, i, compute).nodes
    decreases k - i
  {
    hide Built, Acyclic, Above, VisitSources;
    if i == k {
      u := SlotPassed(p, o, rank, s, n, i, compute, open, y);
      VisitedNode(p, u, open, x);
      SourcesBuild(p, o, rank, u, n, i + 1, compute, open);
    } else if SlotAt(o, p[n].src, i) == None {
      SlotSkipped(p, o, s, n, i, compute);
      u := SlotsInOrder(p, o, rank, s, n, i + 1, k, compute, open, x, y);
    } else {
      u := SlotPassed(p, o, rank, s, n, i, compute, open, y);
      u := SlotsInOrder(p, o, rank, u, n, i + 1, k, compute, open, x, y);
    }
  }

  lemma SlotSkipped(p: Pool, o: Order, s: State, n: Id, i: nat, compute: bool)
    requires WellFormed(p) && n < |p| && i < |p[n].src| && SlotAt(o, p[n].src, i) == None
    ensures VisitSources(p, o, s, n, i, compute) == VisitSources(p, o, s, n, i + 1, compute)
  {
  }

  lemma FirstVisitEnds(p: Pool, o: Order, s: State, n: Id, compute: bool)
    requires WellFormed(p) && n < |p| && n !in s.uses && !IsLeaf(p[n])
    ensures Visit(p, o, s, n, compute).nodes == VisitSources(p, o, Open(p, s, n, compute), n, 0, compute).nodes + [n]
  {
    MarkLeft(p, s, n, compute);
  }

  lemma SourceRecorded(p: Pool, o: Order, s: State, n: Id, compute: bool, j: nat, y: Id)
    requires GraphInv(p, s) && n < |p| && j < |p[n].src| && SlotAt(o, p[n].src, j) == Some(y) && y < |p| && !IsLeaf(p[y])
    ensures y in Visit(p, o, s, n, compute).nodes
  {
    assert p[n].src[if o == LeftToRight then j else |p[n].src| - 1 - j] == Some(y);
    assert IsSource(p, n, y);
    AncestorSelf(p, y);
    AncestorStep(p, n, y, y);
    VisitsExactly(p, o, s, n, compute, y);
    VisitInv(p, o, s, n, compute);
    hide Visit;
    assert y !in Visit(p, o, s, n, compute).leafs;
  }

  lemma SlotOrder(p: Pool, o: Order, s: State, n: Id, compute: bool, k: nat, j: nat, x: Id, y: Id)
    requires GraphInv(p, s) && n < |p| && n !in s.uses && k < j < |p[n].src| && !IsLeaf(p[n])
    requires SlotAt(o, p[n].src, k) == Some(x) && SlotAt(o, p[n].src, j) == Some(y) && x != n && y != n
    requires x < |p| && y < |p| && !IsLeaf(p[x]) && !IsLeaf(p[y]) && y !in s.uses && Apart(p, o, n, 0, k, y)
    ensures Precedes(Visit(p, o, s, n, compute).nodes, x, y)
  {
    hide Visit, VisitSources, Apart, ExactUses;
    var rank :| Acyclic(p, rank);
    var f := Open(p, s, n, compute);
    OpenBuilds(p, s, n, compute, {});
    assert {} + {n} == {n};
    var u := SlotsInOrder(p, o, rank, f, n, 0, k, compute, {n}, x, y);
    FirstVisitEnds(p, o, s, n, compute);
    VisitInv(p, o, s, n, compute);
    SourceRecorded(p, o, s, n, compute, j, y);
    assert y !in u.nodes;
    LaterPrecedes(p, u, Visit(p, o, s, n, compute), x, y);
  }

  // The source in slot k is evaluated before the one in slot j.
  predicate Sooner(o: Order, k: nat, j: nat) {
    if o == LeftToRight then k < j else j < k
  }

  // The sources of a node seen for the first time are recorded in evaluation order: one before
  // any that comes later and is not needed for it or for an earlier one.
  lemma EvaluationOrder(p: Pool, o: Order, s: State, n: Id, compute: bool, k: nat, j: nat, x: Id, y: Id)
    requires GraphInv(p, s) && n < |p| && n !in s.uses && k < |p[n].src| && j < |p[n].src| && Sooner(o, k, j) && !IsLeaf(p[n])
    requires p[n].src[k] == Some(x) && p[n].src[j] == Some(y) && x != n && y != n
    requires x < |p| && y < |p| && !IsLeaf(p[x]) && !IsLeaf(p[y]) && y !in s.uses
    requires forall m :: 0 <= m < |p[n].src| && (m == k || Sooner(o, m, k)) && p[n].src[m].Some? ==> !Ancestor(p, p[n].src[m].value, y)
    ensures Precedes(Visit(p, o, s, n, compute).nodes, x, y)
  {
    hide GraphInv, Visit;
    var last := |p[n].src| - 1;
    SlotOrder(p, o, s, n, compute, if o == LeftToRight then k else last - k, if o == LeftToRight then j else last - j, x, y);
  }
}
