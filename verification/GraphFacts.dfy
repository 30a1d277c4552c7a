// What every expansion keeps: build order, exact use counts, compute flags.
module GraphFacts {
  import opened Options
  import opened Tensors
  import opened GraphBuild

  // ---- use counts ------------------------------------------------------------------

  function Uses(s: State, x: Id): nat {
    if x in s.uses then s.uses[x] else 0
  }

  // How many slots of tensor n name x.
  function SlotRefs(p: Pool, n: Id, x: Id): nat {
    if n < |p| then multiset(p[n].src)[Some(x)] else 0
  }

  // How many slots of the listed tensors name x.
  function Refs(p: Pool, list: seq<Id>, x: Id): nat {
    if list == [] then 0 else SlotRefs(p, list[0], x) + Refs(p, list[1..], x)
  }

  lemma {:induction false} RefsConcat(p: Pool, a: seq<Id>, b: seq<Id>, x: Id)
    ensures Refs(p, a + b, x) == Refs(p, a, x) + Refs(p, b, x)
  {
    if a == [] {
      assert a + b == b;
    } else {
      assert (a + b)[1..] == a[1..] + b;
      RefsConcat(p, a[1..], b, x);
    }
  }

  // The slots that the source loop has yet to visit.
  function Pending(o: Order, src: seq<Option<Id>>, i: nat): seq<Option<Id>>
    requires i <= |src|
  {
    if o == LeftToRight then src[i..] else src[..|src| - i]
  }

  lemma PendingStep(o: Order, src: seq<Option<Id>>, i: nat)
    requires i < |src|
    ensures multiset(Pending(o, src, i)) == multiset{SlotAt(o, src, i)} + multiset(Pending(o, src, i + 1))
  {
    if o == LeftToRight {
      assert src[i..] == [src[i]] + src[i + 1..];
    } else {
      assert src[..|src| - i] == src[..|src| - i - 1] + [src[|src| - 1 - i]];
    }
  }

  // ---- build order -----------------------------------------------------------------

  ghost predicate NoDup(list: seq<Id>) {
    forall i, j :: 0 <= i < j < |list| ==> list[i] != list[j]
  }

  // Visited tensors are recorded once, except those still open (on the recursion stack).
  ghost predicate Partition(p: Pool, s: State, open: set<Id>) {
    && (forall x :: x in s.uses <==> x in s.nodes || x in s.leafs || x in open)
    && (forall x :: x in s.uses ==> x < |p|)
    && (forall x :: x in open ==> x !in s.nodes && x !in s.leafs)
    && NoDup(s.nodes) && NoDup(s.leafs)
    && (forall x :: x in s.leafs ==> x < |p| && IsLeaf(p[x]))
    && (forall x :: x in s.nodes ==> x < |p| && !IsLeaf(p[x]))
  }

  // Every operand is a leaf, an earlier node, or the node itself.
  ghost predicate Ordered(p: Pool, s: State) {
    forall i, x :: 0 <= i < |s.nodes| && s.nodes[i] < |p| && IsSource(p, s.nodes[i], x) ==>
      x == s.nodes[i] || x in s.leafs || x in s.nodes[..i]
  }

  ghost predicate Built(p: Pool, s: State, open: set<Id>) {
    Partition(p, s, open) && Ordered(p, s)
  }

  // Open tensors lie strictly above n, unless n is itself open.
  ghost predicate Above(rank: seq<nat>, open: set<Id>, n: Id) {
    n < |rank| && forall g :: g in open ==> g < |rank| && (g == n || rank[n] < rank[g])
  }

  // From s to t: lists only grow, and use counts grow by the references of the new
  // nodes plus the pending slots of one open node.
  ghost predicate Advances(p: Pool, s: State, t: State, extra: multiset<Option<Id>>) {
    && s.nodes <= t.nodes && s.leafs <= t.leafs && Grows(s, t)
    && (forall x :: Uses(t, x) == Uses(s, x) + Refs(p, t.nodes[|s.nodes|..], x) + extra[Some(x)])
  }

  lemma AdvancesTrans(p: Pool, s: State, t: State, u: State, e: multiset<Option<Id>>, f: multiset<Option<Id>>)
    requires Advances(p, s, t, e) && Advances(p, t, u, f)
    ensures Advances(p, s, u, e + f)
  {
    assert u.nodes[|s.nodes|..] == t.nodes[|s.nodes|..] + u.nodes[|t.nodes|..];
    forall x ensures Uses(u, x) == Uses(s, x) + Refs(p, u.nodes[|s.nodes|..], x) + (e + f)[Some(x)] {
      RefsConcat(p, t.nodes[|s.nodes|..], u.nodes[|t.nodes|..], x);
    }
  }

  lemma RecordBuilds(p: Pool, s: State, n: Id, open: set<Id>)
    requires WellFormed(p) && n < |p| && n in open
    requires Built(p, s, open)
    requires forall x :: IsSource(p, n, x) ==> x == n || x in s.nodes || x in s.leafs
    ensures Built(p, Record(p, s, n), open - {n})
  {
    var t := Record(p, s, n);
    if !IsLeaf(p[n]) {
      forall i, x | 0 <= i < |t.nodes| && t.nodes[i] < |p| && IsSource(p, t.nodes[i], x)
        ensures x == t.nodes[i] || x in t.leafs || x in t.nodes[..i]
      {
        if i < |s.nodes| {
          assert t.nodes[i] == s.nodes[i];
          assert t.nodes[..i] == s.nodes[..i];
        } else {
          assert t.nodes[..i] == s.nodes;
        }
      }
    } else {
      assert forall i :: 0 <= i <= |s.nodes| ==> t.nodes[..i] == s.nodes[..i];
    }
  }

  // Recording a node whose slots were all counted closes its account.
  lemma RecordAdvances(p: Pool, s: State, v: State, n: Id)
    requires WellFormed(p) && n < |p|
    requires Advances(p, s, v, multiset(p[n].src))
    ensures Advances(p, s, Record(p, v, n), multiset{})
  {
    var t := Record(p, v, n);
    if IsLeaf(p[n]) {
      assert t.nodes == v.nodes;
      forall x ensures Some(x) !in p[n].src { }
    } else {
      assert t.nodes[|s.nodes|..] == v.nodes[|s.nodes|..] + [n];
      forall x ensures Uses(t, x) == Uses(s, x) + Refs(p, t.nodes[|s.nodes|..], x) {
        RefsConcat(p, v.nodes[|s.nodes|..], [n], x);
        assert Refs(p, [n], x) == SlotRefs(p, n, x);
      }
    }
  }

  lemma AdvancesNowhere(p: Pool, s: State, t: State)
    requires t.nodes == s.nodes && t.leafs == s.leafs && Grows(s, t)
    requires forall x :: Uses(t, x) == Uses(s, x)
    ensures Advances(p, s, t, multiset{})
  {
    assert t.nodes[|s.nodes|..] == [];
  }

  lemma OpenBuilds(p: Pool, s: State, n: Id, compute: bool, open: set<Id>)
    requires n < |p| && n !in s.uses && Built(p, s, open)
    ensures Built(p, Open(p, s, n, compute), open + {n})
    ensures Advances(p, s, Open(p, s, n, compute), multiset{})
  {
    AdvancesNowhere(p, s, Open(p, s, n, compute));
  }

  lemma CountBuilds(p: Pool, s: State, v: State, x: Id, open: set<Id>)
    requires Built(p, v, open) && x in v.uses && Advances(p, s, v, multiset{})
    ensures Built(p, CountUse(v, x), open) && Advances(p, s, CountUse(v, x), multiset{Some(x)})
  {
    assert CountUse(v, x).uses.Keys == v.uses.Keys;
  }

  // ---- the main induction on the walk ----------------------------------------------

  // A first visit ends by recording the tensor it started from.
  ghost predicate EndsWith(p: Pool, s: State, t: State, n: Id)
    requires n < |p|
  {
    if IsLeaf(p[n]) then |t.leafs| > 0 && t.leafs[|t.leafs| - 1] == n && t.nodes == s.nodes
    else |t.nodes| > |s.nodes| && t.nodes[|t.nodes| - 1] == n
  }

  lemma {:induction false} VisitBuilds(p: Pool, o: Order, rank: seq<nat>, s: State, n: Id, compute: bool, open: set<Id>)
    requires WellFormed(p) && Acyclic(p, rank) && n < |p|
    requires Built(p, s, open) && Above(rank, open, n)
    ensures Built(p, Visit(p, o, s, n, compute), open)
    ensures Advances(p, s, Visit(p, o, s, n, compute), multiset{})
    ensures n !in s.uses ==> EndsWith(p, s, Visit(p, o, s, n, compute), n)
    decreases Left(p, s), VisitRank(p, s, n), 0
  {
    MarkLeft(p, s, n, compute);
    if n in s.uses {
      var m := Mark(p, s, n, compute);
      AdvancesNowhere(p, s, m);
      if compute {
        ReflagBuilds(p, o, rank, m, n, 0, open);
        AdvancesTrans(p, s, m, Reflag(p, o, m, n, 0), multiset{}, multiset{});
      }
    } else {
      var f := Open(p, s, n, compute);
      OpenBuilds(p, s, n, compute, open);
      SourcesBuild(p, o, rank, f, n, 0, compute, open + {n});
      FirstVisitBuilds(p, o, rank, s, f, n, compute, open);
    }
  }

  lemma FirstVisitBuilds(p: Pool, o: Order, rank: seq<nat>, s: State, f: State, n: Id, compute: bool, open: set<Id>)
    requires WellFormed(p) && Acyclic(p, rank) && n < |p| && n !in open && Above(rank, open, n)
    requires Advances(p, s, f, multiset{}) && f.nodes == s.nodes
    requires var v := VisitSources(p, o, f, n, 0, compute);
             && Built(p, v, open + {n})
             && Advances(p, f, v, multiset(Pending(o, p[n].src, 0)))
    ensures var t := Record(p, VisitSources(p, o, f, n, 0, compute), n);
            Built(p, t, open) && Advances(p, s, t, multiset{}) && EndsWith(p, s, t, n)
  {
    var v := VisitSources(p, o, f, n, 0, compute);
    assert Pending(o, p[n].src, 0) == p[n].src;
    SourcesVisited(p, o, f, n, 0, compute);
    forall x | IsSource(p, n, x) ensures x == n || x in v.nodes || x in v.leafs {
      var k :| 0 <= k < |p[n].src| && p[n].src[k] == Some(x);
      assert p[n].src[k].value == n || rank[p[n].src[k].value] < rank[n];
      assert x in v.uses;
    }
    hide Built, Record;
    RecordBuilds(p, v, n, open + {n});
    assert open + {n} - {n} == open;
    AdvancesTrans(p, s, f, v, multiset{}, multiset(p[n].src));
    assert multiset{} + multiset(p[n].src) == multiset(p[n].src);
    RecordAdvances(p, s, v, n);
    if p[n].op == NoOp { NoSourcesNoNodes(p, o, f, n, 0, compute); }
  }

  lemma {:induction false} NoSourcesNoNodes(p: Pool, o: Order, s: State, n: Id, i: nat, compute: bool)
    requires WellFormed(p) && n < |p| && i <= |p[n].src| && p[n].op == NoOp
    ensures VisitSources(p, o, s, n, i, compute) == s
    decreases |p[n].src| - i
  {
    if i < |p[n].src| {
      NoSourcesNoNodes(p, o, s, n, i + 1, compute);
    }
  }

  lemma {:induction false} SourcesBuild(p: Pool, o: Order, rank: seq<nat>, s: State, n: Id, i: nat, compute: bool, open: set<Id>)
    requires WellFormed(p) && Acyclic(p, rank) && n < |p| && i <= |p[n].src|
    requires Built(p, s, open) && Above(rank, open, n) && n in open
    ensures Built(p, VisitSources(p, o, s, n, i, compute), open)
    ensures Advances(p, s, VisitSources(p, o, s, n, i, compute), multiset(Pending(o, p[n].src, i)))
    decreases Left(p, s), 4, |p[n].src| - i
  {
    var src := p[n].src;
    if i == |src| {
      assert Pending(o, src, i) == [];
      AdvancesNowhere(p, s, s);
    } else {
      PendingStep(o, src, i);
      var x := SlotAt(o, src, i);
      if x == None {
        SourcesBuild(p, o, rank, s, n, i + 1, compute, open);
        NoneCounts(p, s, VisitSources(p, o, s, n, i + 1, compute), multiset(Pending(o, src, i + 1)));
      } else {
        AboveSource(p, o, rank, open, n, i);
        VisitBuilds(p, o, rank, s, x.value, compute, open);
        CountBuilds(p, s, Visit(p, o, s, x.value, compute), x.value, open);
        SlotBuilds(p, o, rank, s, CountUse(Visit(p, o, s, x.value, compute), x.value), n, i, compute, open);
      }
    }
  }

  lemma {:induction false} SlotBuilds(p: Pool, o: Order, rank: seq<nat>, s: State, c: State, n: Id, i: nat, compute: bool, open: set<Id>)
    requires WellFormed(p) && Acyclic(p, rank) && n < |p| && i < |p[n].src|
    requires Above(rank, open, n) && n in open
    requires SlotAt(o, p[n].src, i).Some?
    requires c == CountUse(Visit(p, o, s, SlotAt(o, p[n].src, i).value, compute), SlotAt(o, p[n].src, i).value)
    requires Built(p, c, open) && Advances(p, s, c, multiset{SlotAt(o, p[n].src, i)})
    ensures Built(p, VisitSources(p, o, s, n, i, compute), open)
    ensures Advances(p, s, VisitSources(p, o, s, n, i, compute), multiset(Pending(o, p[n].src, i)))
    decreases Left(p, s), 4, |p[n].src| - i, 0
  {
    GrowsLeft(p, Visit(p, o, s, SlotAt(o, p[n].src, i).value, compute), c);
    SourcesBuild(p, o, rank, c, n, i + 1, compute, open);
    PendingStep(o, p[n].src, i);
    AdvancesTrans(p, s, c, VisitSources(p, o, c, n, i + 1, compute),
      multiset{SlotAt(o, p[n].src, i)}, multiset(Pending(o, p[n].src, i + 1)));
  }

  lemma NoneCounts(p: Pool, s: State, t: State, e: multiset<Option<Id>>)
    requires Advances(p, s, t, e)
    ensures Advances(p, s, t, multiset{None} + e)
  {
  }

  lemma AboveSource(p: Pool, o: Order, rank: seq<nat>, open: set<Id>, n: Id, i: nat)
    requires Acyclic(p, rank) && n < |p| && i < |p[n].src| && SlotAt(o, p[n].src, i).Some?
    requires Above(rank, open, n) && n in open
    ensures SlotAt(o, p[n].src, i).value < |p| && Above(rank, open, SlotAt(o, p[n].src, i).value)
  {
  }

  lemma {:induction false} SourcesVisited(p: Pool, o: Order, s: State, n: Id, i: nat, compute: bool)
    requires WellFormed(p) && n < |p| && i <= |p[n].src|
    ensures forall x :: Some(x) in Pending(o, p[n].src, i) ==> x in VisitSources(p, o, s, n, i, compute).uses
    decreases |p[n].src| - i
  {
    var src := p[n].src;
    if i < |src| {
      var x := SlotAt(o, src, i);
      var next := if x == None then s else
        CountUse(Visit(p, o, s, x.value, compute), x.value);
      SourcesVisited(p, o, next, n, i + 1, compute);
      PendingStep(o, src, i);
      forall y | Some(y) in Pending(o, src, i) ensures y in VisitSources(p, o, s, n, i, compute).uses {
        assert Some(y) in multiset(Pending(o, src, i));
      }
    }
  }

  lemma {:induction false} ReflagBuilds(p: Pool, o: Order, rank: seq<nat>, s: State, n: Id, i: nat, open: set<Id>)
    requires WellFormed(p) && Acyclic(p, rank) && n < |p| && i <= |p[n].src|
    requires Built(p, s, open) && Above(rank, open, n)
    ensures Built(p, Reflag(p, o, s, n, i), open)
    ensures Advances(p, s, Reflag(p, o, s, n, i), multiset{})
    decreases Left(p, s), FlagRank(p, n), |p[n].src| - i
  {
    if i == |p[n].src| {
      AdvancesNowhere(p, s, s);
    } else {
      var x := p[n].src[i];
      if x == None || x.value in s.flags {
        ReflagBuilds(p, o, rank, s, n, i + 1, open);
      } else {
        assert x.value == n || rank[x.value] < rank[n];
        VisitBuilds(p, o, rank, s, x.value, true, open);
        var v := Visit(p, o, s, x.value, true);
        ReflagBuilds(p, o, rank, v, n, i + 1, open);
        AdvancesTrans(p, s, v, Reflag(p, o, v, n, i + 1), multiset{}, multiset{});
      }
    }
  }
}
