// Which nodes of the forward graph need gradients.
module BackwardNeeds {
  import opened Options
  import opened Tensors
  import opened GraphBuild
  import opened GraphFacts
  import opened GraphFlags
  import opened GraphRuns
  import opened Backward

  // A recorded parameter or loss.
  predicate Sought(p: Pool, nodes: seq<Id>, y: Id) {
    y in nodes && y < |p| && (p[y].param || p[y].loss)
  }

  ghost predicate DependsOn(p: Pool, nodes: seq<Id>, x: Id) {
    exists y :: Sought(p, nodes, y) && Ancestor(p, x, y)
  }

  lemma {:induction false} NeededDepends(p: Pool, nodes: seq<Id>, k: nat, x: Id)
    requires k <= |nodes| && InPool(p, nodes) && x in Needed(p, nodes, k)
    ensures x in nodes && DependsOn(p, nodes, x)
  {
    if x in Needed(p, nodes, k - 1) {
      NeededDepends(p, nodes, k - 1, x);
    } else if p[x].param || p[x].loss {
      AncestorSelf(p, x);
      assert Sought(p, nodes, x);
    } else {
      var j :| 0 <= j < |p[x].src| && p[x].src[j].Some? && p[x].src[j].value in Needed(p, nodes, k - 1);
      var z := p[x].src[j].value;
      NeededDepends(p, nodes, k - 1, z);
      var y :| Sought(p, nodes, y) && Ancestor(p, z, y);
      assert IsSource(p, x, z);
      AncestorStep(p, x, z, y);
    }
  }

  lemma {:induction false} NeededGrows(p: Pool, nodes: seq<Id>, j: nat, k: nat)
    requires j <= k <= |nodes| && InPool(p, nodes)
    ensures Needed(p, nodes, j) <= Needed(p, nodes, k)
  {
    if j < k { NeededGrows(p, nodes, j, k - 1); }
  }

  // Whether a node is needed is settled when the loop reaches it.
  lemma {:induction false} NeededSettled(p: Pool, nodes: seq<Id>, i: nat, k: nat)
    requires i < k <= |nodes| && InPool(p, nodes) && NoDup(nodes) && nodes[i] in Needed(p, nodes, k)
    ensures nodes[i] in Needed(p, nodes, i + 1)
  {
    if k > i + 1 {
      assert nodes[k - 1] != nodes[i];
      NeededSettled(p, nodes, i, k - 1);
    }
  }

  lemma SourceNeeded(p: Pool, nodes: seq<Id>, i: nat, j: nat, z: Id)
    requires j < i < |nodes| && InPool(p, nodes) && NoDup(nodes) && nodes[j] == z
    requires z in Needed(p, nodes, |nodes|) && IsSource(p, nodes[i], z)
    ensures nodes[i] in Needed(p, nodes, |nodes|)
  {
    NeededSettled(p, nodes, j, |nodes|);
    NeededGrows(p, nodes, j + 1, i);
    var k :| 0 <= k < |p[nodes[i]].src| && p[nodes[i]].src[k] == Some(z);
    assert AnyNeeded(p[nodes[i]], Needed(p, nodes, i));
    assert nodes[i] in Needed(p, nodes, i + 1);
    NeededGrows(p, nodes, i + 1, |nodes|);
  }

  lemma SoughtNeeded(p: Pool, nodes: seq<Id>, y: Id)
    requires InPool(p, nodes) && Sought(p, nodes, y)
    ensures y in Needed(p, nodes, |nodes|)
  {
    var i :| 0 <= i < |nodes| && nodes[i] == y;
    assert y in Needed(p, nodes, i + 1);
    NeededGrows(p, nodes, i + 1, |nodes|);
  }

  // A leaf has no sources, so a path through recorded tensors meets one only at its end.
  lemma LeafEnds(p: Pool, s: State, path: seq<Id>)
    requires GraphInv(p, s) && Path(p, path) && path[0] in s.leafs
    ensures |path| == 1
  {
    LongPath(p, path);
  }

  lemma {:induction false} PathNeeded(p: Pool, s: State, path: seq<Id>)
    requires GraphInv(p, s) && InPool(p, s.nodes) && Path(p, path) && path[0] in s.nodes && Sought(p, s.nodes, path[|path| - 1])
    ensures path[0] in Needed(p, s.nodes, |s.nodes|)
    decreases |path|
  {
    if |path| == 1 {
      SoughtNeeded(p, s.nodes, path[0]);
    } else {
      PathTail(p, path);
      var i :| 0 <= i < |s.nodes| && s.nodes[i] == path[0];
      var z := path[1];
      assert z == s.nodes[i] || z in s.leafs || z in s.nodes[..i];
      if z in s.leafs {
        LeafEnds(p, s, path[1..]);
        assert false;
      } else {
        PathNeeded(p, s, path[1..]);
        if z != s.nodes[i] {
          var j :| 0 <= j < |s.nodes[..i]| && s.nodes[..i][j] == z;
          SourceNeeded(p, s.nodes, i, j, z);
        }
      }
    }
  }

  // The builder marks exactly the nodes that a recorded parameter or loss can be reached from.
  lemma NeededExactly(p: Pool, s: State, x: Id)
    requires GraphInv(p, s) && InPool(p, s.nodes)
    ensures x in Needed(p, s.nodes, |s.nodes|) <==> x in s.nodes && DependsOn(p, s.nodes, x)
  {
    if x in Needed(p, s.nodes, |s.nodes|) { NeededDepends(p, s.nodes, |s.nodes|, x); }
    if x in s.nodes && DependsOn(p, s.nodes, x) {
      var y :| Sought(p, s.nodes, y) && Ancestor(p, x, y);
      var path :| Path(p, path) && path[0] == x && path[|path| - 1] == y;
      PathNeeded(p, s, path);
    }
  }
}
