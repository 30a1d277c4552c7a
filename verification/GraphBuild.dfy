// Forward graph construction (tools/ref/ggml.c, ggml_visit_parents_graph and its callers).
module GraphBuild {
  import opened Options
  import opened Tensors

  datatype Order = LeftToRight | RightToLeft

  // What one graph has recorded, plus the compute flags of the pool.
  // The visited set is the domain of uses.
  datatype State = State(nodes: seq<Id>, leafs: seq<Id>, uses: map<Id, nat>, flags: set<Id>)

  function SlotAt(o: Order, src: seq<Option<Id>>, i: nat): Option<Id>
    requires i < |src|
  {
    if o == LeftToRight then src[i] else src[|src| - 1 - i]
  }

  ghost function Unvisited(p: Pool, s: State): set<Id> {
    set x: Id | 0 <= x < |p| && x !in s.uses
  }

  ghost function Unflagged(p: Pool, s: State): set<Id> {
    set x: Id | 0 <= x < |p| && p[x].op != NoOp && x !in s.flags
  }

  // The work left: tensors not visited yet plus operations not flagged yet.
  ghost function Left(p: Pool, s: State): nat {
    |Unvisited(p, s)| + |Unflagged(p, s)|
  }

  ghost predicate Grows(s: State, t: State) {
    s.uses.Keys <= t.uses.Keys && s.flags <= t.flags
  }

  lemma SubsetSize<T>(a: set<T>, b: set<T>)
    requires a <= b
    ensures |a| <= |b| && (a != b ==> |a| < |b|)
  {
    var c := b - a;
    assert b == a + c && a !! c;
    assert |b| == |a| + |c|;
  }

  lemma GrowsLeft(p: Pool, s: State, t: State)
    requires Grows(s, t)
    ensures Left(p, t) <= Left(p, s)
    ensures (exists x: Id :: x < |p| && x !in s.uses && x in t.uses) ==> Left(p, t) < Left(p, s)
    ensures (exists x: Id :: x < |p| && p[x].op != NoOp && x !in s.flags && x in t.flags) ==> Left(p, t) < Left(p, s)
  {
    assert Unvisited(p, t) <= Unvisited(p, s);
    assert Unflagged(p, t) <= Unflagged(p, s);
    SubsetSize(Unvisited(p, t), Unvisited(p, s));
    SubsetSize(Unflagged(p, t), Unflagged(p, s));
    if x: Id :| x < |p| && x !in s.uses && x in t.uses {
      assert x in Unvisited(p, s) && x !in Unvisited(p, t);
    }
    if x: Id :| x < |p| && p[x].op != NoOp && x !in s.flags && x in t.flags {
      assert x in Unflagged(p, s) && x !in Unflagged(p, t);
    }
  }

  // Ranks of the three mutually recursive walks when neither set shrinks.
  ghost function VisitRank(p: Pool, s: State, n: Id): nat
    requires n < |p|
  {
    if p[n].op != NoOp && n in s.flags then 3 else 1
  }

  ghost function FlagRank(p: Pool, n: Id): nat
    requires n < |p|
  {
    if p[n].op != NoOp then 2 else 0
  }

  function Record(p: Pool, s: State, n: Id): State
    requires n < |p|
  {
    if IsLeaf(p[n]) then s.(leafs := s.leafs + [n]) else s.(nodes := s.nodes + [n])
  }

  function Mark(p: Pool, s: State, n: Id, compute: bool): State
    requires n < |p|
  {
    if p[n].op != NoOp && compute then s.(flags := s.flags + {n}) else s
  }

  // The first visit opens the node: it is in the visited set with no uses yet.
  function Open(p: Pool, s: State, n: Id, compute: bool): State
    requires n < |p|
  {
    var m := Mark(p, s, n, compute);
    m.(uses := m.uses[n := 0])
  }

  lemma MarkLeft(p: Pool, s: State, n: Id, compute: bool)
    requires n < |p|
    ensures Left(p, Mark(p, s, n, compute)) <= Left(p, s)
    ensures compute && p[n].op != NoOp && n !in s.flags ==> Left(p, Mark(p, s, n, compute)) < Left(p, s)
    ensures n !in s.uses ==> Left(p, Open(p, s, n, compute)) < Left(p, s)
  {
    GrowsLeft(p, s, Mark(p, s, n, compute));
    if compute && p[n].op != NoOp && n !in s.flags {
      assert n in Mark(p, s, n, compute).flags;
    }
    if n !in s.uses {
      assert n in Open(p, s, n, compute).uses;
      GrowsLeft(p, s, Open(p, s, n, compute));
    }
  }

  function CountUse(s: State, x: Id): State
    requires x in s.uses
  {
    s.(uses := s.uses[x := s.uses[x] + 1])
  }

  ghost function Visit(p: Pool, o: Order, s: State, n: Id, compute: bool): (t: State)
    requires WellFormed(p) && n < |p|
    ensures Grows(s, t) && n in t.uses && Left(p, t) <= Left(p, s)
    decreases Left(p, s), VisitRank(p, s, n), 0
  {
    MarkLeft(p, s, n, compute);
    if n in s.uses then
      if compute then Reflag(p, o, Mark(p, s, n, compute), n, 0) else s
    else
      var v := VisitSources(p, o, Open(p, s, n, compute), n, 0, compute);
      assert Left(p, Record(p, v, n)) == Left(p, v);
      Record(p, v, n)
  }

  // The loop over the sources of a node seen for the first time, from slot i on.
  ghost function VisitSources(p: Pool, o: Order, s: State, n: Id, i: nat, compute: bool): (t: State)
    requires WellFormed(p) && n < |p| && i <= |p[n].src|
    ensures Grows(s, t) && Left(p, t) <= Left(p, s)
    decreases Left(p, s), 4, |p[n].src| - i
  {
    if i == |p[n].src| then s
    else
      var x := SlotAt(o, p[n].src, i);
      if x == None then VisitSources(p, o, s, n, i + 1, compute)
      else
        var v := Visit(p, o, s, x.value, compute);
        GrowsLeft(p, v, CountUse(v, x.value));
        VisitSources(p, o, CountUse(v, x.value), n, i + 1, compute)
  }

  // The loop that pushes the compute flag through a node visited before, from slot i on.
  ghost function Reflag(p: Pool, o: Order, s: State, n: Id, i: nat): (t: State)
    requires WellFormed(p) && n < |p| && i <= |p[n].src|
    ensures Grows(s, t) && Left(p, t) <= Left(p, s)
    decreases Left(p, s), FlagRank(p, n), |p[n].src| - i
  {
    if i == |p[n].src| then s
    else
      var x := p[n].src[i];
      if x == None || x.value in s.flags then Reflag(p, o, s, n, i + 1)
      else Reflag(p, o, Visit(p, o, s, x.value, true), n, i + 1)
  }
}
