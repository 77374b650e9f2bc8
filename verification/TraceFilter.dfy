/** Filtering an arena by verbosity (crates/traces/src/lib.rs). */
module TraceFilter {
  import opened Wrappers
  import opened AddressMap
  import opened CallTraces
  import opened TraceForest
  import opened TracePruning
  import TraceBuilder

  /** `nodes` with the copy of a kept child pushed and hooked under `parent`. */
  function WithCopy(nodes: seq<CallTraceNode>, parent: Option<nat>, payload: Payload): seq<CallTraceNode>
    requires parent.Some? ==> parent.value < |nodes|
  {
    var pushed := nodes + [CallTraceNode(parent, [], |nodes|, payload.trace, payload.logs, payload.l2L1Logs, [])];
    if parent.None? then pushed
    else pushed[parent.value := pushed[parent.value].(children := pushed[parent.value].children + [|nodes|])]
  }

  lemma {:induction false} CopyGrafts(nodes: seq<CallTraceNode>, parent: Option<nat>, payload: Payload)
    requires parent.Some? ==> parent.value < |nodes|
    ensures WithCopy(nodes, parent, payload) == Graft(Cleared, nodes, parent, [Tree(payload, [])])
  {
    var leaf, slot := Tree(payload, []), |nodes|;
    assert [leaf][1..] == [];
    assert Roots([leaf], slot) == [slot];
    assert LayForest(Cleared, [leaf], parent, slot) == LayTree(Cleared, leaf, parent, slot);
    if parent.Some? {
      assert nodes[parent.value].ordering + [] == nodes[parent.value].ordering;
    }
  }

  /** What filtering the children `slots` adds, and how one more child extends it. */
  lemma {:induction false} GraftNextChild(
    known: KnownAddresses, nodes: seq<CallTraceNode>, slots: seq<nat>, i: nat,
    target: seq<CallTraceNode>, parent: Option<nat>, v: Verbosity)
    requires Descends(nodes) && i < |slots| && forall k :: 0 <= k < |slots| ==> slots[k] < |nodes|
    requires parent.Some? ==> parent.value < |target|
    ensures var done := Graft(Cleared, target, parent, Prune(known, ReadForest(nodes, slots[..i]), v));
            |target| <= |done| &&
            Graft(Cleared, done, parent, Prune(known, [ReadTree(nodes, slots[i])], v))
            == Graft(Cleared, target, parent, Prune(known, ReadForest(nodes, slots[..i + 1]), v))
  {
    var done, next := ReadForest(nodes, slots[..i]), [ReadTree(nodes, slots[i])];
    GraftAppend(Cleared, target, parent, Prune(known, done, v), Prune(known, next, v));
    PruneAppend(known, done, next, v);
    assert done + next == ReadForest(nodes, slots[..i + 1]);
  }

  /** Copies the shown calls below slot `origIdx` under `parentIdx`, splicing hidden calls out. */
  method FilterNodeRecursively(
    known: KnownAddresses, origIdx: nat, nodes: seq<CallTraceNode>,
    filtered: CallTraceArena, parentIdx: Option<nat>, verbosity: Verbosity)
    requires Descends(nodes) && origIdx < |nodes|
    requires parentIdx.Some? ==> parentIdx.value < |filtered.arena|
    modifies filtered
    ensures filtered.arena == Graft(Cleared, old(filtered.arena), parentIdx,
                                    Prune(known, ReadForest(nodes, nodes[origIdx].children), verbosity))
    decreases |nodes| - origIdx, 0
  {
    var children := nodes[origIdx].children;
    ghost var before := filtered.arena;
    GraftNothing(Cleared, before, parentIdx);
    for i := 0 to |children|
      invariant |before| <= |filtered.arena|
      invariant filtered.arena
             == Graft(Cleared, before, parentIdx, Prune(known, ReadForest(nodes, children[..i]), verbosity))
    {
      GraftNextChild(known, nodes, children, i, before, parentIdx, verbosity);
      FilterChild(known, children[i], nodes, filtered, parentIdx, verbosity);
    }
    assert children[..|children|] == children;
  }

  /** The loop body: one child of the node being filtered. */
  method FilterChild(
    known: KnownAddresses, childIdx: nat, nodes: seq<CallTraceNode>,
    filtered: CallTraceArena, parentIdx: Option<nat>, verbosity: Verbosity)
    requires Descends(nodes) && childIdx < |nodes|
    requires parentIdx.Some? ==> parentIdx.value < |filtered.arena|
    modifies filtered
    ensures filtered.arena
         == Graft(Cleared, old(filtered.arena), parentIdx, Prune(known, [ReadTree(nodes, childIdx)], verbosity))
    decreases |nodes| - childIdx, 1
  {
    var child := nodes[childIdx];
    ghost var tree := ReadTree(nodes, childIdx);
    assert tree.subs == ReadForest(nodes, child.children);
    PruneOne(known, tree, verbosity);
    if ShouldIncludeCall(known, child.trace.address, verbosity) {
      ghost var before := filtered.arena;
      var newIdx := |filtered.arena|;
      var copy := child.(idx := newIdx, parent := parentIdx, children := [], ordering := []);
      copy := copy.(l2L1Logs := RetainLogs(copy.l2L1Logs, verbosity));
      filtered.arena := filtered.arena + [copy];
      if parentIdx.Some? {
        var p := parentIdx.value;
        filtered.arena := filtered.arena[p := filtered.arena[p].(children := filtered.arena[p].children + [newIdx])];
      }
      ghost var payload := Retain(tree.payload, verbosity);
      CopyGrafts(before, parentIdx, payload);
      GraftTree(Cleared, before, parentIdx, payload, Prune(known, tree.subs, verbosity));
      FilterNodeRecursively(known, childIdx, nodes, filtered, Some(newIdx), verbosity);
    } else {
      FilterNodeRecursively(known, childIdx, nodes, filtered, parentIdx, verbosity);
    }
  }

  function WithOrdering(node: CallTraceNode): CallTraceNode {
    node.(ordering := Ordering(Rebuilt, PayloadAt(node), |node.children|))
  }

  /** Lists the logs, then the L2-L1 logs, then the calls of a node. */
  method RebuildOrdering(node: CallTraceNode) returns (r: CallTraceNode)
    ensures r == WithOrdering(node)
  {
    var ordering := [];
    for i := 0 to |node.logs|
      invariant ordering == LogItems(i)
    {
      ordering := ordering + [Log(i)];
    }
    for i := 0 to |node.l2L1Logs|
      invariant ordering == LogItems(|node.logs|) + L1L2LogItems(i)
    {
      ordering := ordering + [L1L2Log(i)];
    }
    for i := 0 to |node.children|
      invariant ordering == LogItems(|node.logs|) + L1L2LogItems(|node.l2L1Logs|) + CallItems(0, i)
    {
      ordering := ordering + [TraceMemberOrder.Call(i)];
    }
    r := node.(ordering := ordering);
  }

  function WithOrderings(nodes: seq<CallTraceNode>): (r: seq<CallTraceNode>)
    ensures |r| == |nodes|
  {
    seq(|nodes|, i requires 0 <= i < |nodes| => WithOrdering(nodes[i]))
  }

  lemma {:induction false} OrderLaid(f: seq<Tree>, parent: Option<nat>, base: nat)
    ensures WithOrderings(LayForest(Cleared, f, parent, base)) == LayForest(Rebuilt, f, parent, base)
    decreases f
  {
    if f != [] {
      var t := f[0];
      OrderLaid(t.subs, Some(base), base + 1);
      OrderLaid(f[1..], parent, base + Size(t));
      assert WithOrdering(NodeAt(Cleared, t, parent, base)) == NodeAt(Rebuilt, t, parent, base);
      OrderAppend([NodeAt(Cleared, t, parent, base)], LayForest(Cleared, t.subs, Some(base), base + 1));
      OrderAppend(LayTree(Cleared, t, parent, base), LayForest(Cleared, f[1..], parent, base + Size(t)));
    }
  }

  lemma {:induction false} OrderAppend(a: seq<CallTraceNode>, b: seq<CallTraceNode>)
    ensures WithOrderings(a + b) == WithOrderings(a) + WithOrderings(b)
  {
  }

  /** The copy of the original root that the filter leaves, unreachable, in slot 1. */
  function Orphan(root: CallTraceNode): CallTraceNode {
    WithOrdering(root.(parent := None, idx := 0, children := [], ordering := []))
  }

  /** The filtered arena holding forest `f`: a default root, the orphan, then `f` in preorder. */
  function FilteredNodes(root: CallTraceNode, f: seq<Tree>): seq<CallTraceNode> {
    [DEFAULT_NODE.(children := Roots(f, 2), ordering := CallItems(0, |f|)), Orphan(root)]
    + LayForest(Rebuilt, f, Some(0), 2)
  }

  lemma {:induction false} OrderFiltered(root: CallTraceNode, f: seq<Tree>)
    requires root.children == [] && root.ordering == [] && root.parent == None && root.idx == 0
    ensures WithOrderings(Graft(Cleared, [DEFAULT_NODE, root], Some(0), f)) == FilteredNodes(root, f)
  {
    var linked := DEFAULT_NODE.(children := Roots(f, 2));
    var head, start := [linked, root], [DEFAULT_NODE, root];
    var laid := LayForest(Cleared, f, Some(0), 2);
    assert [] + Roots(f, 2) == Roots(f, 2);
    assert Link(Cleared, DEFAULT_NODE, Roots(f, 2)) == linked;
    assert start[0 := linked] == head;
    assert Graft(Cleared, start, Some(0), f) == head + laid;
    OrderAppend(head, laid);
    OrderLaid(f, Some(0), 2);
    assert LogItems(0) + L1L2LogItems(0) + CallItems(0, |f|) == CallItems(0, |f|);
    assert WithOrderings(head)[0] == DEFAULT_NODE.(children := Roots(f, 2), ordering := CallItems(0, |f|));
    assert WithOrderings(head)[1] == Orphan(root);
  }

  /** Rebuilds the ordering of every node in place. */
  method RebuildOrderings(filtered: CallTraceArena)
    modifies filtered
    ensures filtered.arena == WithOrderings(old(filtered.arena))
  {
    ghost var before := filtered.arena;
    for i := 0 to |filtered.arena|
      invariant |filtered.arena| == |before|
      invariant forall k :: 0 <= k < i ==> filtered.arena[k] == WithOrdering(before[k])
      invariant forall k :: i <= k < |before| ==> filtered.arena[k] == before[k]
    {
      var node := RebuildOrdering(filtered.arena[i]);
      filtered.arena := filtered.arena[i := node];
    }
  }

  /** A new arena: default root, orphaned copy of the old root, then what the verbosity shows. */
  method FilterCallTraceArena(known: KnownAddresses, arena: CallTraceArena, verbosity: Verbosity)
    returns (filtered: CallTraceArena)
    requires Descends(arena.arena)
    ensures fresh(filtered)
    ensures arena.arena == [] ==> filtered.arena == [DEFAULT_NODE]
    ensures arena.arena != [] ==>
      filtered.arena == FilteredNodes(arena.arena[0], Prune(known, Forest(arena.arena), verbosity))
  {
    filtered := new CallTraceArena();
    if arena.arena == [] {
      return;
    }
    var nodes := arena.arena;
    var root := nodes[0].(parent := None, idx := 0, children := [], ordering := []);
    filtered.arena := filtered.arena + [root];
    ghost var before := filtered.arena;
    FilterNodeRecursively(known, 0, nodes, filtered, Some(0), verbosity);
    ghost var f := Prune(known, Forest(nodes), verbosity);
    assert before == [DEFAULT_NODE, root];
    RebuildOrderings(filtered);
    OrderFiltered(root, f);
    assert Orphan(root) == Orphan(nodes[0]);
  }

  // ---------- Main results ----------

  /** A filtered arena is again well linked and holds the forest it was made from below slot 0. */
  lemma {:induction false} FilteredReadsBack(root: CallTraceNode, f: seq<Tree>)
    ensures Descends(FilteredNodes(root, f))
    ensures Forest(FilteredNodes(root, f)) == f
  {
    var nodes := FilteredNodes(root, f);
    var laid := LayForest(Rebuilt, f, Some(0), 2);
    LaidLinksInside(Rebuilt, f, Some(0), 2);
    RootsInside(f, 2);
    forall i, k | 0 <= i < |nodes| && 0 <= k < |nodes[i].children|
      ensures i < nodes[i].children[k] < |nodes|
    {
      if i >= 2 {
        assert nodes[i] == laid[i - 2];
      }
    }
    assert nodes[2..2 + ForestSize(f)] == laid;
    ReadLaid(Rebuilt, nodes, f, Some(0), 2);
  }

  /** Filtering the arena built from `calls` shows exactly the pruned calls. */
  lemma {:induction false} FilterOfBuild(known: KnownAddresses, calls: seq<Call>, tx: TxResult, v: Verbosity)
    ensures var built := TraceBuilder.BuiltNodes(known, calls, tx);
            && built != [] && Descends(built)
            && var filtered := FilteredNodes(built[0], Prune(known, Forest(built), v));
               Descends(filtered) &&
               Forest(filtered) == Prune(known, TraceBuilder.ForestOf(known, tx, calls), v)
  {
    TraceBuilder.BuildReadsBack(known, calls, tx);
    var built := TraceBuilder.BuiltNodes(known, calls, tx);
    FilteredReadsBack(built[0], Prune(known, Forest(built), v));
  }

  /**
    Filtering twice gives, slot for slot, the arena of filtering once at the smaller verbosity,
    except for the unreachable slot 1.
   */
  lemma {:induction false} FilterTwice(known: KnownAddresses, nodes: seq<CallTraceNode>, v: Verbosity, w: Verbosity)
    requires Descends(nodes) && nodes != []
    ensures var first := FilteredNodes(nodes[0], Prune(known, Forest(nodes), v));
            && Descends(first)
            && var second := FilteredNodes(first[0], Prune(known, Forest(first), w));
               var once := FilteredNodes(nodes[0], Prune(known, Forest(nodes), Min(v, w)));
               |second| == |once| && forall i :: 0 <= i < |once| && i != 1 ==> second[i] == once[i]
  {
    var f := Forest(nodes);
    FilteredReadsBack(nodes[0], Prune(known, f, v));
    PruneTwice(known, f, v, w);
  }
}
