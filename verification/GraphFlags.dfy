// The compute flag: which tensors an expansion marks.
module GraphFlags {
  import opened Options
  import opened Tensors
  import opened GraphBuild

  // A downward path: each tensor is an operand of the one before.
  ghost predicate Path(p: Pool, path: seq<Id>) {
    && |path| > 0
    && (forall i :: 0 <= i < |path| ==> path[i] < |p|)
    && (forall i :: 0 < i < |path| ==> IsSource(p, path[i - 1], path[i]))
  }

  ghost predicate Ancestor(p: Pool, root: Id, x: Id) {
    exists path :: Path(p, path) && path[0] == root && path[|path| - 1] == x
  }

  // Flagged operations have all their operands flagged, outside the exempt set.
  ghost predicate ClosedExcept(p: Pool, flags: set<Id>, exempt: set<Id>) {
    forall n, x: Id :: n in flags && n !in exempt && n < |p| && IsSource(p, n, x) && x < |p| && p[x].op != NoOp ==> x in flags
  }

  ghost predicate FlagsWithin(p: Pool, s: State, t: State, n: Id) {
    forall x :: x in t.flags ==> x in s.flags || (x < |p| && p[x].op != NoOp && Ancestor(p, n, x))
  }

  // ---- paths -----------------------------------------------------------------------

  lemma AncestorSelf(p: Pool, n: Id)
    requires n < |p|
    ensures Ancestor(p, n, n)
  {
    assert Path(p, [n]);
  }

  lemma AncestorStep(p: Pool, n: Id, x: Id, y: Id)
    requires n < |p| && IsSource(p, n, x) && Ancestor(p, x, y)
    ensures Ancestor(p, n, y)
  {
    var path :| Path(p, path) && path[0] == x && path[|path| - 1] == y;
    var longer := [n] + path;
    assert Path(p, longer) by {
      forall i | 0 < i < |longer| ensures IsSource(p, longer[i - 1], longer[i]) {
        if i > 1 { assert longer[i - 1] == path[i - 2] && longer[i] == path[i - 1]; }
      }
    }
    assert longer[|longer| - 1] == y;
  }

  lemma PathTail(p: Pool, path: seq<Id>)
    requires Path(p, path) && |path| > 1
    ensures Path(p, path[1..]) && IsSource(p, path[0], path[1])
  {
    forall i | 0 < i < |path[1..]| ensures IsSource(p, path[1..][i - 1], path[1..][i]) {
      assert IsSource(p, path[i], path[i + 1]);
    }
    assert IsSource(p, path[1 - 1], path[1]);
  }

  lemma LongPath(p: Pool, path: seq<Id>)
    requires WellFormed(p) && Path(p, path)
    ensures |path| > 1 ==> p[path[0]].op != NoOp
  {
    if |path| > 1 {
      assert IsSource(p, path[0], path[1]);
      var k :| 0 <= k < |p[path[0]].src| && p[path[0]].src[k] == Some(path[1]);
    }
  }

  lemma {:induction false} ClosedPath(p: Pool, flags: set<Id>, path: seq<Id>)
    requires WellFormed(p) && ClosedExcept(p, flags, {}) && Path(p, path)
    requires path[0] in flags || p[path[0]].op == NoOp
    ensures var last := path[|path| - 1]; p[last].op != NoOp ==> last in flags
  {
    if |path| > 1 {
      assert IsSource(p, path[0], path[1]);
      assert p[path[0]].op != NoOp by {
        var k :| 0 <= k < |p[path[0]].src| && p[path[0]].src[k] == Some(path[1]);
      }
      forall i | 0 < i < |path[1..]| ensures IsSource(p, path[1..][i - 1], path[1..][i]) {
        assert IsSource(p, path[i], path[i + 1]);
      }
      ClosedPath(p, flags, path[1..]);
    }
  }

  // A closed flag set that holds a tensor holds its non-leaf ancestors.
  lemma ClosedAncestor(p: Pool, flags: set<Id>, n: Id, x: Id)
    requires WellFormed(p) && ClosedExcept(p, flags, {}) && n < |p|
    requires n in flags || p[n].op == NoOp
    requires x < |p| && p[x].op != NoOp && Ancestor(p, n, x)
    ensures x in flags
  {
    var path :| Path(p, path) && path[0] == n && path[|path| - 1] == x;
    ClosedPath(p, flags, path);
  }

  // ---- an expansion without compute leaves the flags alone ---------------------------

  lemma {:induction false} VisitKeepsFlags(p: Pool, o: Order, s: State, n: Id)
    requires WellFormed(p) && n < |p|
    ensures Visit(p, o, s, n, false).flags == s.flags
    decreases Left(p, s), VisitRank(p, s, n), 0
  {
    MarkLeft(p, s, n, false);
    if n !in s.uses {
      SourcesKeepFlags(p, o, Open(p, s, n, false), n, 0);
    }
  }

  lemma {:induction false} SourcesKeepFlags(p: Pool, o: Order, s: State, n: Id, i: nat)
    requires WellFormed(p) && n < |p| && i <= |p[n].src|
    ensures VisitSources(p, o, s, n, i, false).flags == s.flags
    decreases Left(p, s), 4, |p[n].src| - i
  {
    if i < |p[n].src| {
      var x := SlotAt(o, p[n].src, i);
      if x == None {
        SourcesKeepFlags(p, o, s, n, i + 1);
      } else {
        VisitKeepsFlags(p, o, s, x.value);
        var v := Visit(p, o, s, x.value, false);
        GrowsLeft(p, v, CountUse(v, x.value));
        SourcesKeepFlags(p, o, CountUse(v, x.value), n, i + 1);
      }
    }
  }

  // ---- an expansion with compute flags only ancestors ---------------------------------

  lemma {:induction false} VisitFlagsAncestors(p: Pool, o: Order, s: State, n: Id)
    requires WellFormed(p) && n < |p|
    ensures FlagsWithin(p, s, Visit(p, o, s, n, true), n)
    decreases Left(p, s), VisitRank(p, s, n), 0
  {
    MarkLeft(p, s, n, true);
    AncestorSelf(p, n);
    if n in s.uses {
      ReflagFlagsAncestors(p, o, Mark(p, s, n, true), n, 0);
    } else {
      SourcesFlagAncestors(p, o, Open(p, s, n, true), n, 0);
    }
  }

  lemma WithinStep(p: Pool, s: State, v: State, t: State, n: Id, x: Id)
    requires n < |p| && IsSource(p, n, x)
    requires FlagsWithin(p, s, v, x) && FlagsWithin(p, v, t, n)
    ensures FlagsWithin(p, s, t, n)
  {
    forall y | y in v.flags && y !in s.flags ensures Ancestor(p, n, y) {
      AncestorStep(p, n, x, y);
    }
  }

  lemma {:induction false} SourcesFlagAncestors(p: Pool, o: Order, s: State, n: Id, i: nat)
    requires WellFormed(p) && n < |p| && i <= |p[n].src|
    ensures FlagsWithin(p, s, VisitSources(p, o, s, n, i, true), n)
    decreases Left(p, s), 4, |p[n].src| - i
  {
    if i < |p[n].src| {
      var x := SlotAt(o, p[n].src, i);
      if x == None {
        SourcesFlagAncestors(p, o, s, n, i + 1);
      } else {
        VisitFlagsAncestors(p, o, s, x.value);
        var v := Visit(p, o, s, x.value, true);
        GrowsLeft(p, v, CountUse(v, x.value));
        SourcesFlagAncestors(p, o, CountUse(v, x.value), n, i + 1);
        assert IsSource(p, n, x.value);
        WithinStep(p, s, CountUse(v, x.value), VisitSources(p, o, s, n, i, true), n, x.value);
      }
    }
  }

  lemma {:induction false} ReflagFlagsAncestors(p: Pool, o: Order, s: State, n: Id, i: nat)
    requires WellFormed(p) && n < |p| && i <= |p[n].src|
    ensures FlagsWithin(p, s, Reflag(p, o, s, n, i), n)
    decreases Left(p, s), FlagRank(p, n), |p[n].src| - i
  {
    if i < |p[n].src| {
      var x := p[n].src[i];
      if x == None || x.value in s.flags {
        ReflagFlagsAncestors(p, o, s, n, i + 1);
      } else {
        VisitFlagsAncestors(p, o, s, x.value);
        var v := Visit(p, o, s, x.value, true);
        ReflagFlagsAncestors(p, o, v, n, i + 1);
        assert IsSource(p, n, x.value);
        WithinStep(p, s, v, Reflag(p, o, s, n, i), n, x.value);
      }
    }
  }

  // ---- and leaves the flags closed ----------------------------------------------------

  lemma {:induction false} VisitClosesFlags(p: Pool, o: Order, s: State, n: Id, exempt: set<Id>)
    requires WellFormed(p) && n < |p| && ClosedExcept(p, s.flags, exempt)
    ensures ClosedExcept(p, Visit(p, o, s, n, true).flags, exempt)
    ensures p[n].op != NoOp ==> n in Visit(p, o, s, n, true).flags
    decreases Left(p, s), VisitRank(p, s, n), 0
  {
    MarkLeft(p, s, n, true);
    var m := Mark(p, s, n, true);
    if n in s.uses {
      ReflagClosesFlags(p, o, m, n, 0, exempt + {n});
      ClosedAt(p, Reflag(p, o, m, n, 0).flags, n, exempt);
    } else {
      var f := Open(p, s, n, true);
      SourcesCloseFlags(p, o, f, n, 0, exempt + {n});
      assert forall k :: 0 <= k < |p[n].src| ==>
        p[n].src[k] == SlotAt(o, p[n].src, if o == LeftToRight then k else |p[n].src| - 1 - k);
      ClosedAt(p, VisitSources(p, o, f, n, 0, true).flags, n, exempt);
    }
  }

  lemma ClosedAt(p: Pool, flags: set<Id>, n: Id, exempt: set<Id>)
    requires n < |p| && ClosedExcept(p, flags, exempt + {n})
    requires forall x: Id :: IsSource(p, n, x) && x < |p| && p[x].op != NoOp ==> x in flags
    ensures ClosedExcept(p, flags, exempt)
  {
  }

  lemma {:induction false} SourcesCloseFlags(p: Pool, o: Order, s: State, n: Id, i: nat, exempt: set<Id>)
    requires WellFormed(p) && n < |p| && i <= |p[n].src| && ClosedExcept(p, s.flags, exempt)
    ensures var t := VisitSources(p, o, s, n, i, true);
            ClosedExcept(p, t.flags, exempt)
            && forall k :: i <= k < |p[n].src| ==>
                 SlotAt(o, p[n].src, k) == None || p[SlotAt(o, p[n].src, k).value].op == NoOp || SlotAt(o, p[n].src, k).value in t.flags
    decreases Left(p, s), 4, |p[n].src| - i
  {
    if i < |p[n].src| {
      var x := SlotAt(o, p[n].src, i);
      if x == None {
        SourcesCloseFlags(p, o, s, n, i + 1, exempt);
      } else {
        VisitClosesFlags(p, o, s, x.value, exempt);
        var v := Visit(p, o, s, x.value, true);
        GrowsLeft(p, v, CountUse(v, x.value));
        SourcesCloseFlags(p, o, CountUse(v, x.value), n, i + 1, exempt);
      }
    }
  }

  lemma {:induction false} ReflagClosesFlags(p: Pool, o: Order, s: State, n: Id, i: nat, exempt: set<Id>)
    requires WellFormed(p) && n < |p| && i <= |p[n].src| && ClosedExcept(p, s.flags, exempt)
    ensures var t := Reflag(p, o, s, n, i);
            ClosedExcept(p, t.flags, exempt)
            && forall k :: i <= k < |p[n].src| ==>
                 p[n].src[k] == None || p[p[n].src[k].value].op == NoOp || p[n].src[k].value in t.flags
    decreases Left(p, s), FlagRank(p, n), |p[n].src| - i
  {
    if i < |p[n].src| {
      var x := p[n].src[i];
      if x == None || x.value in s.flags {
        ReflagClosesFlags(p, o, s, n, i + 1, exempt);
      } else {
        VisitClosesFlags(p, o, s, x.value, exempt);
        ReflagClosesFlags(p, o, Visit(p, o, s, x.value, true), n, i + 1, exempt);
      }
    }
  }

  // From closed flags, a computing expansion adds exactly the operations among n's ancestors.
  lemma ExpandFlagsExactly(p: Pool, o: Order, s: State, n: Id, x: Id)
    requires WellFormed(p) && n < |p| && ClosedExcept(p, s.flags, {})
    ensures ClosedExcept(p, Visit(p, o, s, n, true).flags, {})
    ensures x in Visit(p, o, s, n, true).flags <==>
              x in s.flags || (x < |p| && p[x].op != NoOp && Ancestor(p, n, x))
  {
    VisitFlagsAncestors(p, o, s, n);
    VisitClosesFlags(p, o, s, n, {});
    if x < |p| && p[x].op != NoOp && Ancestor(p, n, x) {
      ClosedAncestor(p, Visit(p, o, s, n, true).flags, n, x);
    }
  }

  // The flags have gained the operations among n's ancestors.
  ghost predicate Expanded(p: Pool, flags: set<Id>, now: set<Id>, n: Id) {
    forall x: Id :: x in now <==> x in flags || (x < |p| && p[x].op != NoOp && Ancestor(p, n, x))
  }

  lemma FlagsOfExpansion(p: Pool, o: Order, s: State, n: Id)
    requires WellFormed(p) && n < |p|
    ensures ClosedExcept(p, s.flags, {}) ==> Expanded(p, s.flags, Visit(p, o, s, n, true).flags, n)
  {
    if ClosedExcept(p, s.flags, {}) {
      forall x: Id
        ensures x in Visit(p, o, s, n, true).flags <==> x in s.flags || (x < |p| && p[x].op != NoOp && Ancestor(p, n, x))
      {
        ExpandFlagsExactly(p, o, s, n, x);
      }
    }
  }
}
