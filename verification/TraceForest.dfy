/** The pure forest behind an arena: how a forest is laid out in slots and how it is read back. */
module TraceForest {
  import opened Wrappers
  import opened CallTraces

  /** What a node shows, apart from its links. */
  datatype Payload = Payload(trace: CallTrace, logs: seq<CallLog>, l2L1Logs: seq<L2L1Logs>)

  datatype Tree = Tree(payload: Payload, subs: seq<Tree>)

  /** How `ordering` is kept: recorded while building, cleared while filtering, rebuilt afterwards. */
  datatype Style = Recorded | Cleared | Rebuilt

  // ---------- Layout ----------

  function Size(t: Tree): (n: nat)
    ensures n > 0
    decreases t, 1
  {
    1 + ForestSize(t.subs)
  }

  function ForestSize(f: seq<Tree>): nat
    decreases f, 0
  {
    if f == [] then 0 else Size(f[0]) + ForestSize(f[1..])
  }

  /** The slots of the roots of `f` when its preorder layout starts at slot `base`. */
  function Roots(f: seq<Tree>, base: nat): (roots: seq<nat>)
    ensures |roots| == |f|
  {
    if f == [] then [] else [base] + Roots(f[1..], base + Size(f[0]))
  }

  function Ordering(style: Style, payload: Payload, subs: nat): seq<TraceMemberOrder> {
    match style
    case Recorded => LogItems(|payload.logs|) + CallItems(0, subs)
    case Cleared => []
    case Rebuilt => LogItems(|payload.logs|) + L1L2LogItems(|payload.l2L1Logs|) + CallItems(0, subs)
  }

  function NodeAt(style: Style, t: Tree, parent: Option<nat>, slot: nat): CallTraceNode {
    CallTraceNode(parent, Roots(t.subs, slot + 1), slot, t.payload.trace, t.payload.logs, t.payload.l2L1Logs,
                  Ordering(style, t.payload, |t.subs|))
  }

  /** The slots of a tree in preorder. */
  function LayTree(style: Style, t: Tree, parent: Option<nat>, base: nat): (r: seq<CallTraceNode>)
    ensures |r| == Size(t)
    decreases t, 1
  {
    [NodeAt(style, t, parent, base)] + LayForest(style, t.subs, Some(base), base + 1)
  }

  function LayForest(style: Style, f: seq<Tree>, parent: Option<nat>, base: nat): (r: seq<CallTraceNode>)
    ensures |r| == ForestSize(f)
    decreases f, 0
  {
    if f == [] then []
    else LayTree(style, f[0], parent, base) + LayForest(style, f[1..], parent, base + Size(f[0]))
  }

  function Link(style: Style, node: CallTraceNode, roots: seq<nat>): CallTraceNode {
    node.(children := node.children + roots,
          ordering := node.ordering + if style.Recorded? then CallItems(|node.children|, |roots|) else [])
  }

  /** `nodes` with the whole of `f` laid out behind it and hooked under `parent`. */
  function Graft(style: Style, nodes: seq<CallTraceNode>, parent: Option<nat>, f: seq<Tree>): (r: seq<CallTraceNode>)
    requires parent.Some? ==> parent.value < |nodes|
    ensures |r| == |nodes| + ForestSize(f)
  {
    var linked := if parent.None? then nodes
                  else nodes[parent.value := Link(style, nodes[parent.value], Roots(f, |nodes|))];
    linked + LayForest(style, f, parent, |nodes|)
  }

  // ---------- Laws of layout ----------

  lemma {:induction false} RootsAppend(f: seq<Tree>, g: seq<Tree>, base: nat)
    ensures Roots(f + g, base) == Roots(f, base) + Roots(g, base + ForestSize(f))
  {
    if f == [] {
      assert f + g == g;
    } else {
      assert (f + g)[1..] == f[1..] + g;
      RootsAppend(f[1..], g, base + Size(f[0]));
    }
  }

  lemma {:induction false} LayAppend(style: Style, f: seq<Tree>, g: seq<Tree>, parent: Option<nat>, base: nat)
    ensures LayForest(style, f + g, parent, base)
         == LayForest(style, f, parent, base) + LayForest(style, g, parent, base + ForestSize(f))
    decreases |f|
  {
    if f == [] {
      assert f + g == g;
    } else {
      LayAppend(style, f[1..], g, parent, base + Size(f[0]));
      LayOneMore(style, f, g, parent, base);
    }
  }

  lemma {:induction false} LayOneMore(style: Style, f: seq<Tree>, g: seq<Tree>, parent: Option<nat>, base: nat)
    requires f != []
    requires var mid := base + Size(f[0]);
             LayForest(style, f[1..] + g, parent, mid)
             == LayForest(style, f[1..], parent, mid) + LayForest(style, g, parent, mid + ForestSize(f[1..]))
    ensures LayForest(style, f + g, parent, base)
         == LayForest(style, f, parent, base) + LayForest(style, g, parent, base + ForestSize(f))
  {
    var tree, mid := LayTree(style, f[0], parent, base), base + Size(f[0]);
    var rest, others := LayForest(style, f[1..], parent, mid), LayForest(style, g, parent, mid + ForestSize(f[1..]));
    LayFirst(style, f, g, parent, base);
    LayUnfold(style, f, parent, base);
    Regroup(LayForest(style, f + g, parent, base), tree, rest, others);
  }

  /** A forest is laid out as its first tree, then the others. */
  lemma {:induction false} LayUnfold(style: Style, f: seq<Tree>, parent: Option<nat>, base: nat)
    requires f != []
    ensures ForestSize(f) == Size(f[0]) + ForestSize(f[1..])
    ensures LayForest(style, f, parent, base)
         == LayTree(style, f[0], parent, base) + LayForest(style, f[1..], parent, base + Size(f[0]))
  {
  }

  lemma {:induction false} Regroup<T>(all: seq<T>, a: seq<T>, b: seq<T>, c: seq<T>)
    requires all == a + (b + c)
    ensures all == (a + b) + c
  {
  }

  lemma {:induction false} LayFirst(style: Style, f: seq<Tree>, g: seq<Tree>, parent: Option<nat>, base: nat)
    requires f != []
    ensures LayForest(style, f + g, parent, base)
         == LayTree(style, f[0], parent, base) + LayForest(style, f[1..] + g, parent, base + Size(f[0]))
  {
    assert (f + g)[1..] == f[1..] + g;
  }

  lemma {:induction false} GraftNothing(style: Style, nodes: seq<CallTraceNode>, parent: Option<nat>)
    requires parent.Some? ==> parent.value < |nodes|
    ensures Graft(style, nodes, parent, []) == nodes
  {
    if parent.Some? {
      var node := nodes[parent.value];
      assert node.children + [] == node.children;
      assert node.ordering + [] == node.ordering;
      assert CallItems(|node.children|, 0) == [];
      assert Link(style, node, []) == node;
    }
  }

  /** Grafting two forests one after the other under the same parent grafts their concatenation. */
  lemma {:induction false} GraftAppend(
    style: Style, nodes: seq<CallTraceNode>, parent: Option<nat>, f: seq<Tree>, g: seq<Tree>)
    requires parent.Some? ==> parent.value < |nodes|
    ensures Graft(style, Graft(style, nodes, parent, f), parent, g) == Graft(style, nodes, parent, f + g)
  {
    var base := |nodes|;
    if parent.None? {
      var first, second := LayForest(style, f, parent, base), LayForest(style, g, parent, base + ForestSize(f));
      LayAppend(style, f, g, parent, base);
      assert nodes + first + second == nodes + (first + second);
    } else {
      GraftAppendUnder(style, nodes, parent.value, f, g);
    }
  }

  lemma {:induction false} GraftAppendUnder(style: Style, nodes: seq<CallTraceNode>, p: nat, f: seq<Tree>, g: seq<Tree>)
    requires p < |nodes|
    ensures Graft(style, Graft(style, nodes, Some(p), f), Some(p), g) == Graft(style, nodes, Some(p), f + g)
  {
    var base := |nodes|;
    var a, b := Roots(f, base), Roots(g, base + ForestSize(f));
    LayAppend(style, f, g, Some(p), base);
    RootsAppend(f, g, base);
    LinkTwice(style, nodes[p], a, b);
    var half, whole := Link(style, nodes[p], a), Link(style, nodes[p], a + b);
    var first, second := LayForest(style, f, Some(p), base), LayForest(style, g, Some(p), base + ForestSize(f));
    GraftShape(style, nodes, p, f);
    GraftShape(style, nodes, p, f + g);
    SpliceTwice(nodes, p, half, whole, first, second);
    var grafted := Graft(style, nodes, Some(p), f);
    assert grafted[p] == half;
    GraftShape(style, grafted, p, g);
  }

  lemma {:induction false} GraftShape(style: Style, nodes: seq<CallTraceNode>, p: nat, f: seq<Tree>)
    requires p < |nodes|
    ensures Graft(style, nodes, Some(p), f)
         == nodes[p := Link(style, nodes[p], Roots(f, |nodes|))] + LayForest(style, f, Some(p), |nodes|)
  {
  }

  lemma {:induction false} SpliceTwice<T>(nodes: seq<T>, p: nat, x: T, y: T, a: seq<T>, b: seq<T>)
    requires p < |nodes|
    ensures (nodes[p := x] + a)[p := y] + b == nodes[p := y] + (a + b)
  {
  }

  lemma {:induction false} LinkTwice(style: Style, node: CallTraceNode, a: seq<nat>, b: seq<nat>)
    ensures Link(style, Link(style, node, a), b) == Link(style, node, a + b)
  {
    assert node.children + a + b == node.children + (a + b);
    var c := |node.children|;
    assert CallItems(c, |a|) + CallItems(c + |a|, |b|) == CallItems(c, |a + b|);
    assert node.ordering + CallItems(c, |a|) + CallItems(c + |a|, |b|)
        == node.ordering + (CallItems(c, |a|) + CallItems(c + |a|, |b|));
    assert node.ordering + [] + [] == node.ordering;
  }

  /** Grafting a bare node and then its subtrees under it grafts the whole tree. */
  lemma {:induction false} GraftTree(
    style: Style, nodes: seq<CallTraceNode>, parent: Option<nat>, payload: Payload, subs: seq<Tree>)
    requires parent.Some? ==> parent.value < |nodes|
    requires !style.Rebuilt?
    ensures |Graft(style, nodes, parent, [Tree(payload, [])])| == |nodes| + 1
    ensures Graft(style, Graft(style, nodes, parent, [Tree(payload, [])]), Some(|nodes|), subs)
         == Graft(style, nodes, parent, [Tree(payload, subs)])
  {
    var base := |nodes|;
    var leaf, whole := Tree(payload, []), Tree(payload, subs);
    assert [leaf][1..] == [] && [whole][1..] == [];
    assert Roots([leaf], base) == [base] == Roots([whole], base);
    var bare := Graft(style, nodes, parent, [leaf]);
    assert LayForest(style, [leaf], parent, base) == LayTree(style, leaf, parent, base)
        == [NodeAt(style, leaf, parent, base)];
    assert LayForest(style, [whole], parent, base) == LayTree(style, whole, parent, base);
    var node := NodeAt(style, leaf, parent, base);
    assert bare[base] == node;
    var roots := Roots(subs, base + 1);
    assert node.children + roots == roots;
    assert CallItems(0, 0) == [];
    assert LogItems(|payload.logs|) + [] + CallItems(0, |subs|) == LogItems(|payload.logs|) + CallItems(0, |subs|);
    assert Link(style, node, roots) == NodeAt(style, whole, parent, base);
  }

  // ---------- Reading an arena back ----------

  function PayloadAt(node: CallTraceNode): Payload {
    Payload(node.trace, node.logs, node.l2L1Logs)
  }

  /** The tree hanging from slot `i`. */
  ghost function ReadTree(nodes: seq<CallTraceNode>, i: nat): Tree
    requires Descends(nodes) && i < |nodes|
    decreases |nodes| - i
  {
    var children := nodes[i].children;
    Tree(PayloadAt(nodes[i]), seq(|children|, k requires 0 <= k < |children| => ReadTree(nodes, children[k])))
  }

  ghost function ReadForest(nodes: seq<CallTraceNode>, slots: seq<nat>): seq<Tree>
    requires Descends(nodes) && forall k :: 0 <= k < |slots| ==> slots[k] < |nodes|
  {
    seq(|slots|, k requires 0 <= k < |slots| => ReadTree(nodes, slots[k]))
  }

  /** The forest below slot 0. */
  ghost function Forest(nodes: seq<CallTraceNode>): seq<Tree>
    requires Descends(nodes) && nodes != []
  {
    ReadForest(nodes, nodes[0].children)
  }

  lemma {:induction false} RootsInside(f: seq<Tree>, base: nat)
    ensures forall k :: 0 <= k < |f| ==> base <= Roots(f, base)[k] < base + ForestSize(f)
  {
    if f != [] {
      RootsInside(f[1..], base + Size(f[0]));
    }
  }

  /** In a laid-out forest every child slot lies behind its parent and inside the forest. */
  ghost predicate LinksInside(nodes: seq<CallTraceNode>, base: nat) {
    forall i, k :: 0 <= i < |nodes| && 0 <= k < |nodes[i].children| ==>
      base + i < nodes[i].children[k] < base + |nodes|
  }

  lemma {:induction false} LaidLinksInside(style: Style, f: seq<Tree>, parent: Option<nat>, base: nat)
    ensures LinksInside(LayForest(style, f, parent, base), base)
    decreases f
  {
    if f != [] {
      var t := f[0];
      RootsInside(t.subs, base + 1);
      LaidLinksInside(style, t.subs, Some(base), base + 1);
      LaidLinksInside(style, f[1..], parent, base + Size(t));
      var below := LayForest(style, t.subs, Some(base), base + 1);
      var tree := LayTree(style, t, parent, base);
      forall i, k | 0 <= i < |tree| && 0 <= k < |tree[i].children|
        ensures base + i < tree[i].children[k] < base + |tree|
      {
        if i > 0 {
          assert tree[i] == below[i - 1];
        }
      }
      var rest := LayForest(style, f[1..], parent, base + Size(t));
      var all := LayForest(style, f, parent, base);
      forall i, k | 0 <= i < |all| && 0 <= k < |all[i].children|
        ensures base + i < all[i].children[k] < base + |all|
      {
        if i < |tree| {
          assert all[i] == tree[i];
        } else {
          assert all[i] == rest[i - |tree|];
        }
      }
    }
  }

  lemma {:induction false} GraftDescends(style: Style, nodes: seq<CallTraceNode>, parent: Option<nat>, f: seq<Tree>)
    requires parent.Some? ==> parent.value < |nodes|
    requires Descends(nodes)
    ensures Descends(Graft(style, nodes, parent, f))
  {
    var r := Graft(style, nodes, parent, f);
    var laid := LayForest(style, f, parent, |nodes|);
    LaidLinksInside(style, f, parent, |nodes|);
    RootsInside(f, |nodes|);
    forall i, k | 0 <= i < |r| && 0 <= k < |r[i].children|
      ensures i < r[i].children[k] < |r|
    {
      if i >= |nodes| {
        assert r[i] == laid[i - |nodes|];
      } else if parent.Some? && i == parent.value {
        assert r[i].children == nodes[i].children + Roots(f, |nodes|);
      } else {
        assert r[i] == nodes[i];
      }
    }
  }

  /** Reading a laid-out forest from its roots gives the forest back. */
  lemma {:induction false} ReadLaid(
    style: Style, nodes: seq<CallTraceNode>, f: seq<Tree>, parent: Option<nat>, base: nat)
    requires Descends(nodes)
    requires base + ForestSize(f) <= |nodes|
    requires nodes[base..base + ForestSize(f)] == LayForest(style, f, parent, base)
    ensures forall k :: 0 <= k < |f| ==> Roots(f, base)[k] < |nodes|
    ensures ReadForest(nodes, Roots(f, base)) == f
    decreases f
  {
    RootsInside(f, base);
    if f != [] {
      var t, mid := f[0], base + Size(f[0]);
      LaidSlices(style, nodes, f, parent, base);
      ReadLaid(style, nodes, t.subs, Some(base), base + 1);
      ReadLaid(style, nodes, f[1..], parent, mid);
      ReadOne(nodes, t, base);
      var roots, tail := Roots(f, base), Roots(f[1..], mid);
      forall k | 0 <= k < |f|
        ensures ReadForest(nodes, roots)[k] == f[k]
      {
        if k > 0 {
          assert roots[k] == tail[k - 1];
          assert ReadForest(nodes, tail)[k - 1] == f[1..][k - 1];
        }
      }
    }
  }

  /** The three pieces of a non-empty layout: its first node, that node's subtrees, the remaining trees. */
  lemma {:induction false} LaidSlices(
    style: Style, nodes: seq<CallTraceNode>, f: seq<Tree>, parent: Option<nat>, base: nat)
    requires f != [] && base + ForestSize(f) <= |nodes|
    requires nodes[base..base + ForestSize(f)] == LayForest(style, f, parent, base)
    ensures nodes[base] == NodeAt(style, f[0], parent, base)
    ensures nodes[base + 1..base + Size(f[0])] == LayForest(style, f[0].subs, Some(base), base + 1)
    ensures nodes[base + Size(f[0])..base + ForestSize(f)] == LayForest(style, f[1..], parent, base + Size(f[0]))
  {
    var tree, rest := LayTree(style, f[0], parent, base), LayForest(style, f[1..], parent, base + Size(f[0]));
    Slices(nodes, base, tree, rest);
    assert tree[1..] == LayForest(style, f[0].subs, Some(base), base + 1);
  }

  lemma {:induction false} Slices<T>(s: seq<T>, base: nat, a: seq<T>, b: seq<T>)
    requires a != [] && base + |a| + |b| <= |s| && s[base..base + |a| + |b|] == a + b
    ensures s[base] == a[0]
    ensures s[base + 1..base + |a|] == a[1..]
    ensures s[base + |a|..base + |a| + |b|] == b
  {
    var both := s[base..base + |a| + |b|];
    assert forall j :: 0 <= j < |both| ==> both[j] == s[base + j];
    assert forall j :: 0 <= j < |a| ==> both[j] == a[j];
    assert forall j :: 0 <= j < |b| ==> both[|a| + j] == b[j];
  }

  lemma {:induction false} ReadOne(nodes: seq<CallTraceNode>, t: Tree, slot: nat)
    requires Descends(nodes) && slot < |nodes|
    requires PayloadAt(nodes[slot]) == t.payload
    requires ReadForest(nodes, nodes[slot].children) == t.subs
    ensures ReadTree(nodes, slot) == t
  {
    var children := nodes[slot].children;
    assert ReadTree(nodes, slot).subs == ReadForest(nodes, children);
  }
}
