/**
  Writing a built arena without filtering it. `add_node` records logs and calls in `ordering` but no L2-L1
  log (crates/types/src/traces.rs), so those are kept in the nodes and never printed.
 */
module UnfilteredTraces {
  import opened Wrappers
  import opened AddressMap
  import opened CallTraces
  import opened TraceForest
  import opened TraceBuilder
  import opened TraceWriter

  // ---------- Forgetting the L2-L1 logs ----------

  function StripNodes(nodes: seq<CallTraceNode>): (r: seq<CallTraceNode>)
    ensures |r| == |nodes|
  {
    seq(|nodes|, i requires 0 <= i < |nodes| => nodes[i].(l2L1Logs := []))
  }

  function StripTree(t: Tree): Tree
    decreases t, 1
  {
    Tree(t.payload.(l2L1Logs := []), StripForest(t.subs))
  }

  function StripForest(f: seq<Tree>): (r: seq<Tree>)
    ensures |r| == |f|
    decreases f, 0
  {
    if f == [] then [] else [StripTree(f[0])] + StripForest(f[1..])
  }

  lemma {:induction false} StripKeepsSize(f: seq<Tree>)
    ensures ForestSize(StripForest(f)) == ForestSize(f)
    decreases f
  {
    if f != [] {
      StripKeepsSize(f[0].subs);
      StripKeepsSize(f[1..]);
      assert StripForest(f)[1..] == StripForest(f[1..]);
    }
  }

  lemma {:induction false} StripKeepsRoots(f: seq<Tree>, base: nat)
    ensures Roots(StripForest(f), base) == Roots(f, base)
  {
    if f != [] {
      StripKeepsSize(f[0].subs);
      StripKeepsRoots(f[1..], base + Size(f[0]));
      assert StripForest(f)[1..] == StripForest(f[1..]);
    }
  }

  /** A recorded node without its L2-L1 logs is a rebuilt node: both orderings list logs, then calls. */
  lemma {:induction false} NodeStripped(t: Tree, parent: Option<nat>, slot: nat)
    ensures NodeAt(Rebuilt, StripTree(t), parent, slot) == NodeAt(Recorded, t, parent, slot).(l2L1Logs := [])
  {
    StripKeepsRoots(t.subs, slot + 1);
    var logs, calls := LogItems(|t.payload.logs|), CallItems(0, |t.subs|);
    assert logs + L1L2LogItems(0) + calls == logs + calls;
  }

  lemma {:induction false} LayTreeStripped(t: Tree, parent: Option<nat>, base: nat)
    ensures LayTree(Rebuilt, StripTree(t), parent, base) == StripNodes(LayTree(Recorded, t, parent, base))
    decreases t, 1
  {
    NodeStripped(t, parent, base);
    LayStripped(t.subs, Some(base), base + 1);
    StripAppend([NodeAt(Recorded, t, parent, base)], LayForest(Recorded, t.subs, Some(base), base + 1));
  }

  lemma {:induction false} LayStripped(f: seq<Tree>, parent: Option<nat>, base: nat)
    ensures LayForest(Rebuilt, StripForest(f), parent, base) == StripNodes(LayForest(Recorded, f, parent, base))
    decreases f, 0
  {
    if f != [] {
      var rest := base + Size(f[0]);
      LayTreeStripped(f[0], parent, base);
      LayStripped(f[1..], parent, rest);
      StripKeepsSize(f[0].subs);
      assert StripForest(f)[0] == StripTree(f[0]) && StripForest(f)[1..] == StripForest(f[1..]);
      StripAppend(LayTree(Recorded, f[0], parent, base), LayForest(Recorded, f[1..], parent, rest));
    }
  }

  lemma {:induction false} StripAppend(a: seq<CallTraceNode>, b: seq<CallTraceNode>)
    ensures StripNodes(a + b) == StripNodes(a) + StripNodes(b)
  {
  }

  // ---------- The writer does not miss them ----------

  ghost predicate NamesNoL2L1(nodes: seq<CallTraceNode>) {
    forall i, k :: 0 <= i < |nodes| && 0 <= k < |nodes[i].ordering| ==> !nodes[i].ordering[k].L1L2Log?
  }

  /** What the writer needs of an arena whose orderings name no L2-L1 log. */
  ghost predicate Writable(nodes: seq<CallTraceNode>) {
    && Descends(nodes) && WellOrdered(nodes) && NamesNoL2L1(nodes)
    && Descends(StripNodes(nodes)) && WellOrdered(StripNodes(nodes))
  }

  lemma {:induction false} RenderNodeStripped(config: Config, nodes: seq<CallTraceNode>, idx: nat, level: Level)
    requires Writable(nodes) && idx < |nodes|
    ensures RenderNode(config, nodes, idx, level) == RenderNode(config, StripNodes(nodes), idx, level)
    decreases |nodes| - idx, |nodes[idx].ordering| + 1
  {
    RenderItemsStripped(config, nodes, idx, |nodes[idx].ordering|, Deeper(level));
  }

  lemma {:induction false} RenderItemsStripped(
    config: Config, nodes: seq<CallTraceNode>, idx: nat, n: nat, level: Level)
    requires Writable(nodes) && idx < |nodes| && n <= |nodes[idx].ordering|
    ensures RenderItems(config, nodes, idx, n, level) == RenderItems(config, StripNodes(nodes), idx, n, level)
    decreases |nodes| - idx, n
  {
    if n > 0 {
      RenderItemsStripped(config, nodes, idx, n - 1, level);
      if nodes[idx].ordering[n - 1].Call? {
        RenderNodeStripped(config, nodes, nodes[idx].children[nodes[idx].ordering[n - 1].index], level);
      }
    }
  }

  lemma {:induction false} RenderNodesStripped(
    config: Config, nodes: seq<CallTraceNode>, slots: seq<nat>, level: Level)
    requires Writable(nodes) && forall k :: 0 <= k < |slots| ==> slots[k] < |nodes|
    ensures RenderNodes(config, nodes, slots, level) == RenderNodes(config, StripNodes(nodes), slots, level)
  {
    if slots != [] {
      RenderNodesStripped(config, nodes, slots[..|slots| - 1], level);
      RenderNodeStripped(config, nodes, slots[|slots| - 1], level);
    }
  }

  /** An arena that is rebuilt once stripped can be written as it is. */
  lemma {:induction false} RebuiltIsWritable(nodes: seq<CallTraceNode>)
    requires Descends(nodes) && RebuiltFrom(StripNodes(nodes), 0)
    ensures Writable(nodes)
  {
    var stripped := StripNodes(nodes);
    RebuiltIsWellOrdered(stripped);
    forall i, k | 0 <= i < |nodes| && 0 <= k < |nodes[i].ordering|
      ensures !nodes[i].ordering[k].L1L2Log?
    {
      assert nodes[i].ordering == stripped[i].ordering;
      assert stripped[i].ordering == Ordering(Rebuilt, PayloadAt(stripped[i]), |stripped[i].children|);
    }
    forall i, k | 0 <= i < |nodes| && 0 <= k < |nodes[i].ordering|
      ensures match nodes[i].ordering[k]
              case Log(index) => index < |nodes[i].logs|
              case Call(index) => index < |nodes[i].children|
              case L1L2Log(index) => index < |nodes[i].l2L1Logs|
    {
      assert nodes[i].ordering[k] == stripped[i].ordering[k];
    }
  }

  // ---------- A built arena ----------

  /** A bare root over the recorded layout of `f`. */
  ghost predicate IsRecorded(nodes: seq<CallTraceNode>, f: seq<Tree>) {
    && nodes != [] && nodes[1..] == LayForest(Recorded, f, Some(0), 1)
    && nodes[0].children == Roots(f, 1) && nodes[0].ordering == CallItems(0, |f|) && nodes[0].logs == []
  }

  lemma {:induction false} BuiltIsRecorded(known: KnownAddresses, calls: seq<Call>, tx: TxResult)
    ensures IsRecorded(BuiltNodes(known, calls, tx), ForestOf(known, tx, calls))
  {
    var f := ForestOf(known, tx, calls);
    assert [] + Roots(f, 1) == Roots(f, 1);
    assert [] + CallItems(0, |f|) == CallItems(0, |f|);
  }

  lemma {:induction false} StrippedIsRebuilt(nodes: seq<CallTraceNode>, f: seq<Tree>)
    requires IsRecorded(nodes, f)
    ensures RebuiltFrom(StripNodes(nodes), 0)
    ensures StripNodes(nodes)[1..] == LayForest(Rebuilt, StripForest(f), Some(0), 1)
  {
    var stripped, laid := StripNodes(nodes), LayForest(Rebuilt, StripForest(f), Some(0), 1);
    LayStripped(f, Some(0), 1);
    assert stripped[1..] == StripNodes(nodes[1..]) == laid;
    LaidIsRebuilt(StripForest(f), Some(0), 1);
    forall i | 0 <= i < |nodes|
      ensures stripped[i].ordering == Ordering(Rebuilt, PayloadAt(stripped[i]), |stripped[i].children|)
    {
      if i == 0 {
        assert LogItems(0) + L1L2LogItems(0) + CallItems(0, |f|) == CallItems(0, |f|);
      } else {
        assert stripped[i] == laid[i - 1];
      }
    }
  }

  lemma {:induction false} StrippedReadsBack(nodes: seq<CallTraceNode>, f: seq<Tree>)
    requires IsRecorded(nodes, f) && Descends(StripNodes(nodes))
    ensures Forest(StripNodes(nodes)) == StripForest(f)
  {
    var stripped := StripNodes(nodes);
    StrippedIsRebuilt(nodes, f);
    StripKeepsRoots(f, 1);
    assert stripped[1..1 + ForestSize(StripForest(f))] == stripped[1..];
    ReadLaid(Rebuilt, stripped, StripForest(f), Some(0), 1);
  }

  lemma {:induction false} BuiltIsWritable(known: KnownAddresses, calls: seq<Call>, tx: TxResult)
    ensures var nodes, f := BuiltNodes(known, calls, tx), ForestOf(known, tx, calls);
            IsRecorded(nodes, f) && Writable(nodes) && RebuiltFrom(StripNodes(nodes), 0)
  {
    var nodes, f := BuiltNodes(known, calls, tx), ForestOf(known, tx, calls);
    assert Descends(nodes) by {
      BuildReadsBack(known, calls, tx);
    }
    BuiltIsRecorded(known, calls, tx);
    StrippedIsRebuilt(nodes, f);
    RebuiltIsWritable(nodes);
  }

  lemma {:induction false} SlotsStripped(config: Config, nodes: seq<CallTraceNode>)
    ensures SlotHeaders(config, StripNodes(nodes)) == SlotHeaders(config, nodes)
    ensures SlotLogs(StripNodes(nodes)) == SlotLogs(nodes)
    ensures SlotL2L1Logs(StripNodes(nodes)) == []
  {
    if nodes != [] {
      SlotsStripped(config, nodes[1..]);
      assert StripNodes(nodes)[1..] == StripNodes(nodes[1..]);
    }
  }

  /**
    A built arena that is written without filtering shows every call and every event log of its slots, each
    exactly once and in slot order, and no L2-L1 log at all: its lines are the printout of the recorded
    calls stripped of them, and parse back to just that.
   */
  lemma {:induction false} UnfilteredHidesL2L1Logs(
    config: Config, known: KnownAddresses, calls: seq<Call>, tx: TxResult, level: Level)
    ensures var nodes, f := BuiltNodes(known, calls, tx), StripForest(ForestOf(known, tx, calls));
            && nodes != [] && Descends(nodes) && WellOrdered(nodes)
            && var lines := RenderNodes(config, nodes, nodes[0].children, level);
               && lines == Printout(config, f, level)
               && Headers(lines) == SlotHeaders(config, nodes[1..])
               && Logs(lines) == SlotLogs(nodes[1..])
               && L2L1LogsOf(lines) == []
               && ParseForest(lines, level) == (PrintedForest(config, f), [])
  {
    var nodes, f := BuiltNodes(known, calls, tx), StripForest(ForestOf(known, tx, calls));
    BuiltIsWritable(known, calls, tx);
    StrippedReadsBack(nodes, ForestOf(known, tx, calls));
    RenderNodesStripped(config, nodes, nodes[0].children, level);
    RenderNodesIsPrintout(config, StripNodes(nodes), nodes[0].children, level);
    LayStripped(ForestOf(known, tx, calls), Some(0), 1);
    PrintoutFollowsSlots(config, f, level, Rebuilt, Some(0), 1);
    SlotsStripped(config, nodes[1..]);
    PrintoutParses(config, f, level, []);
    assert Printout(config, f, level) + [] == Printout(config, f, level);
  }
}
