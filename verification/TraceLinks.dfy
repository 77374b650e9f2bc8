/** How the nodes of an arena refer to each other: own index, parent and children agree. */
module TraceLinks {
  import opened Wrappers
  import opened CallTraces
  import opened TraceForest

  /** Every node knows its slot, and every child of a node names the node as its parent. */
  ghost predicate PointsBack(nodes: seq<CallTraceNode>, i: nat)
    requires Descends(nodes) && i < |nodes|
  {
    && nodes[i].idx == i
    && forall k :: 0 <= k < |nodes[i].children| ==> nodes[nodes[i].children[k]].parent == Some(i)
  }

  /** The node has a parent in an earlier slot that lists it among its children. */
  ghost predicate IsListed(nodes: seq<CallTraceNode>, i: nat)
    requires i < |nodes|
  {
    nodes[i].parent.Some? && nodes[i].parent.value < i && i in nodes[nodes[i].parent.value].children
  }

  // ---------- Laid-out forests ----------

  /** As above for a piece of an arena that starts at slot `base` and whose roots are listed by `parent`. */
  ghost predicate PieceLinked(laid: seq<CallTraceNode>, base: nat, parent: Option<nat>, roots: seq<nat>) {
    forall i :: 0 <= i < |laid| ==> NodeLinked(laid, base, parent, roots, i)
  }

  ghost predicate NodeLinked(laid: seq<CallTraceNode>, base: nat, parent: Option<nat>, roots: seq<nat>, i: nat)
    requires i < |laid|
  {
    && laid[i].idx == base + i
    && (forall k :: 0 <= k < |laid[i].children| ==>
          var c := laid[i].children[k]; base + i < c < base + |laid| && laid[c - base].parent == Some(base + i))
    && ((laid[i].parent == parent && base + i in roots)
        || (exists p: nat :: p < i && laid[i].parent == Some(base + p) && base + i in laid[p].children))
  }

  lemma {:induction false} RootsNameParent(style: Style, f: seq<Tree>, parent: Option<nat>, base: nat, k: nat)
    requires k < |f|
    ensures base <= Roots(f, base)[k] < base + ForestSize(f)
    ensures LayForest(style, f, parent, base)[Roots(f, base)[k] - base].parent == parent
  {
    RootsInside(f, base);
    if k > 0 {
      var mid := base + Size(f[0]);
      RootsInside(f[1..], mid);
      RootsNameParent(style, f[1..], parent, mid, k - 1);
    }
  }

  /** One root node in front of the piece below it. */
  lemma {:induction false} TreeLinked(style: Style, t: Tree, parent: Option<nat>, base: nat)
    requires PieceLinked(LayForest(style, t.subs, Some(base), base + 1), base + 1, Some(base), Roots(t.subs, base + 1))
    ensures PieceLinked(LayTree(style, t, parent, base), base, parent, [base])
  {
    var below, tree := LayForest(style, t.subs, Some(base), base + 1), LayTree(style, t, parent, base);
    var roots := Roots(t.subs, base + 1);
    forall i | 0 <= i < |tree|
      ensures NodeLinked(tree, base, parent, [base], i)
    {
      if i == 0 {
        forall k | 0 <= k < |roots|
          ensures base < roots[k] < base + |tree| && tree[roots[k] - base].parent == Some(base)
        {
          RootsNameParent(style, t.subs, Some(base), base + 1, k);
        }
      } else {
        BelowLinked(tree, below, base, roots, i);
        assert NodeLinked(tree, base, Some(base), [], i);
      }
    }
  }

  lemma {:induction false} BelowLinked(
    tree: seq<CallTraceNode>, below: seq<CallTraceNode>, base: nat, roots: seq<nat>, i: nat)
    requires 0 < i < |tree| && |tree| == |below| + 1 && tree[1..] == below && tree[0].children == roots
    requires PieceLinked(below, base + 1, Some(base), roots)
    ensures NodeLinked(tree, base, Some(base), [], i)
  {
    assert NodeLinked(below, base + 1, Some(base), roots, i - 1);
    assert forall j :: 0 < j < |tree| ==> tree[j] == below[j - 1];
    if p: nat :| p < i - 1 && below[i - 1].parent == Some(base + 1 + p) && base + i in below[p].children {
      assert tree[i].parent == Some(base + (p + 1)) && base + i in tree[p + 1].children;
    } else {
      assert tree[i].parent == Some(base + 0) && base + i in tree[0].children;
    }
  }

  /** Two pieces under the same parent, one after the other. */
  lemma {:induction false} JoinLinked(
    a: seq<CallTraceNode>, b: seq<CallTraceNode>, base: nat, parent: Option<nat>, x: seq<nat>, y: seq<nat>)
    requires PieceLinked(a, base, parent, x) && PieceLinked(b, base + |a|, parent, y)
    ensures PieceLinked(a + b, base, parent, x + y)
  {
    var all := a + b;
    forall i | 0 <= i < |all|
      ensures NodeLinked(all, base, parent, x + y, i)
    {
      if i < |a| {
        assert NodeLinked(a, base, parent, x, i);
        LinkedInFront(a, b, base, parent, x, y, i);
      } else {
        assert NodeLinked(b, base + |a|, parent, y, i - |a|);
        LinkedBehind(a, b, base, parent, x, y, i - |a|);
      }
    }
  }

  lemma {:induction false} LinkedInFront(
    a: seq<CallTraceNode>, b: seq<CallTraceNode>, base: nat, parent: Option<nat>, x: seq<nat>, y: seq<nat>, i: nat)
    requires i < |a| && NodeLinked(a, base, parent, x, i)
    ensures NodeLinked(a + b, base, parent, x + y, i)
  {
    var all := a + b;
    assert forall j :: 0 <= j < |a| ==> all[j] == a[j];
    if p: nat :| p < i && a[i].parent == Some(base + p) && base + i in a[p].children {
      assert all[i].parent == Some(base + p) && base + i in all[p].children;
    }
  }

  lemma {:induction false} LinkedBehind(
    a: seq<CallTraceNode>, b: seq<CallTraceNode>, base: nat, parent: Option<nat>, x: seq<nat>, y: seq<nat>, i: nat)
    requires i < |b| && NodeLinked(b, base + |a|, parent, y, i)
    ensures NodeLinked(a + b, base, parent, x + y, |a| + i)
  {
    var all := a + b;
    assert forall j :: 0 <= j < |b| ==> all[|a| + j] == b[j];
    forall k | 0 <= k < |b[i].children|
      ensures var c := b[i].children[k];
              base + |a| + i < c < base + |all| && all[c - base].parent == Some(base + (|a| + i))
    {
      var c := b[i].children[k];
      assert all[|a| + (c - base - |a|)] == b[c - base - |a|];
    }
    if p: nat :| p < i && b[i].parent == Some(base + |a| + p) && base + |a| + i in b[p].children {
      assert all[|a| + i].parent == Some(base + (|a| + p)) && base + (|a| + i) in all[|a| + p].children;
    }
  }

  lemma {:induction false} LaidLinked(style: Style, f: seq<Tree>, parent: Option<nat>, base: nat)
    ensures PieceLinked(LayForest(style, f, parent, base), base, parent, Roots(f, base))
    decreases f
  {
    if f != [] {
      var mid := base + Size(f[0]);
      LaidLinked(style, f[0].subs, Some(base), base + 1);
      TreeLinked(style, f[0], parent, base);
      LaidLinked(style, f[1..], parent, mid);
      JoinLinked(LayTree(style, f[0], parent, base), LayForest(style, f[1..], parent, mid), base, parent,
                 [base], Roots(f[1..], mid));
    }
  }

  /** A root in slot 0 over a forest laid out from slot `base` on; slots between them do not matter. */
  lemma {:induction false} ArenaLinked(style: Style, nodes: seq<CallTraceNode>, f: seq<Tree>, base: nat)
    requires 0 < base <= |nodes| && nodes[base..] == LayForest(style, f, Some(0), base)
    requires nodes[0].children == Roots(f, base) && nodes[0].idx == 0 && Descends(nodes)
    ensures PointsBack(nodes, 0)
    ensures forall i :: base <= i < |nodes| ==> PointsBack(nodes, i) && IsListed(nodes, i)
  {
    var laid := nodes[base..];
    LaidLinked(style, f, Some(0), base);
    forall k | 0 <= k < |nodes[0].children|
      ensures nodes[nodes[0].children[k]].parent == Some(0)
    {
      RootsNameParent(style, f, Some(0), base, k);
    }
    forall i | base <= i < |nodes|
      ensures PointsBack(nodes, i) && IsListed(nodes, i)
    {
      assert NodeLinked(laid, base, Some(0), Roots(f, base), i - base);
      NodeInArena(nodes, base, i);
    }
  }

  lemma {:induction false} NodeInArena(nodes: seq<CallTraceNode>, base: nat, i: nat)
    requires 0 < base <= i < |nodes| && Descends(nodes)
    requires NodeLinked(nodes[base..], base, Some(0), nodes[0].children, i - base)
    ensures PointsBack(nodes, i) && IsListed(nodes, i)
  {
    var laid := nodes[base..];
    assert forall j :: base <= j < |nodes| ==> nodes[j] == laid[j - base];
    if p: nat :| p < i - base && laid[i - base].parent == Some(base + p) && i in laid[p].children {
      assert nodes[i].parent == Some(base + p) && i in nodes[base + p].children;
    }
  }
}
