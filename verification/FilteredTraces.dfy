/** What filtering keeps of an arena, slot by slot (crates/traces/src/lib.rs). */
module FilteredTraces {
  import opened Wrappers
  import opened AddressMap
  import opened CallTraces
  import opened TraceForest
  import opened TracePruning
  import opened TraceFilter
  import opened TraceLinks
  import opened Selections
  import TraceBuilder

  function Payloads(nodes: seq<CallTraceNode>): (r: seq<Payload>)
    ensures |r| == |nodes|
  {
    seq(|nodes|, i requires 0 <= i < |nodes| => PayloadAt(nodes[i]))
  }

  /** The payloads of a forest, each call before its subcalls. */
  function Preorder(f: seq<Tree>): seq<Payload> {
    if f == [] then [] else [f[0].payload] + Preorder(f[0].subs) + Preorder(f[1..])
  }

  lemma {:induction false} PreorderAppend(f: seq<Tree>, g: seq<Tree>)
    ensures Preorder(f + g) == Preorder(f) + Preorder(g)
  {
    if f == [] {
      assert f + g == g;
    } else {
      var all, rest := f + g, f[1..];
      assert all[1..] == rest + g && all[0] == f[0];
      PreorderAppend(rest, g);
      var head := [f[0].payload] + Preorder(f[0].subs);
      assert head + (Preorder(rest) + Preorder(g)) == head + Preorder(rest) + Preorder(g);
    }
  }

  /** Slots are laid out in preorder. */
  lemma {:induction false} SlotsInPreorder(style: Style, f: seq<Tree>, parent: Option<nat>, base: nat)
    ensures Payloads(LayForest(style, f, parent, base)) == Preorder(f)
    decreases f
  {
    if f != [] {
      var t, mid := f[0], base + Size(f[0]);
      SlotsInPreorder(style, t.subs, Some(base), base + 1);
      SlotsInPreorder(style, f[1..], parent, mid);
      PayloadsAppend([NodeAt(style, t, parent, base)], LayForest(style, t.subs, Some(base), base + 1));
      PayloadsAppend(LayTree(style, t, parent, base), LayForest(style, f[1..], parent, mid));
    }
  }

  lemma {:induction false} PayloadsAppend(a: seq<CallTraceNode>, b: seq<CallTraceNode>)
    ensures Payloads(a + b) == Payloads(a) + Payloads(b)
  {
  }

  // ---------- Which calls stay, and what stays of them ----------

  /** Calls to precompiles show from verbosity 4 on, to system contracts from 3 on, all others from 2 on. */
  function Visible(known: KnownAddresses, verbosity: Verbosity): Payload -> bool {
    (p: Payload) =>
      if p.trace.address in known && known[p.trace.address].contractType.Precompile? then verbosity >= 4
      else if p.trace.address in known && known[p.trace.address].contractType.System? then verbosity >= 3
      else verbosity >= 2
  }

  function IsUserLog(): L2L1Logs -> bool {
    (log: L2L1Logs) => log.rawLog.User?
  }

  /** Trace and event logs stay as they are; at verbosity 2 just the user's L2-L1 logs stay, above it all of them. */
  ghost predicate Keeps(was: Payload, kept: Payload, verbosity: Verbosity) {
    && kept.trace == was.trace && kept.logs == was.logs
    && (verbosity == 2 ==> IsSelection(was.l2L1Logs, IsUserLog(), kept.l2L1Logs))
    && (verbosity >= 3 ==> kept.l2L1Logs == was.l2L1Logs)
  }

  ghost predicate KeepsAll(shown: seq<Payload>, kept: seq<Payload>, verbosity: Verbosity) {
    |shown| == |kept| && forall k :: 0 <= k < |kept| ==> Keeps(shown[k], kept[k], verbosity)
  }

  lemma {:induction false} KeepsAppend(
    a: seq<Payload>, a': seq<Payload>, b: seq<Payload>, b': seq<Payload>, verbosity: Verbosity)
    requires KeepsAll(a, a', verbosity) && KeepsAll(b, b', verbosity)
    ensures KeepsAll(a + b, a' + b', verbosity)
  {
  }

  lemma {:induction false} ShownIsVisible(known: KnownAddresses, p: Payload, verbosity: Verbosity)
    ensures Shown(known, p, verbosity) <==> Visible(known, verbosity)(p)
  {
    Thresholds(known, p.trace.address, verbosity);
  }

  lemma {:induction false} RetainKeeps(p: Payload, verbosity: Verbosity)
    ensures Keeps(p, Retain(p, verbosity), verbosity)
  {
    if verbosity == 2 {
      RetainSelects(p.l2L1Logs, verbosity);
      SelectionExt(p.l2L1Logs, Keeper(verbosity), IsUserLog(), RetainLogs(p.l2L1Logs, verbosity));
    }
  }

  /** The calls of a pruned forest are exactly the visible ones, in preorder, each with what is kept of it. */
  lemma {:induction false} PruneKeepsVisible(known: KnownAddresses, f: seq<Tree>, verbosity: Verbosity)
    ensures KeepsAll(Matching(Preorder(f), Visible(known, verbosity)), Preorder(Prune(known, f, verbosity)), verbosity)
    decreases f
  {
    if f != [] {
      var t, p := f[0], Visible(known, verbosity);
      PruneKeepsVisible(known, t.subs, verbosity);
      PruneKeepsVisible(known, f[1..], verbosity);
      HeadKeepsVisible(known, t, verbosity);
      MatchingAppend([t.payload] + Preorder(t.subs), Preorder(f[1..]), p);
      var head := Prune(known, [t], verbosity);
      PruneOne(known, t, verbosity);
      PreorderAppend(head, Prune(known, f[1..], verbosity));
      KeepsAppend(Matching([t.payload] + Preorder(t.subs), p), Preorder(head),
                  Matching(Preorder(f[1..]), p), Preorder(Prune(known, f[1..], verbosity)), verbosity);
    }
  }

  lemma {:induction false} HeadKeepsVisible(known: KnownAddresses, t: Tree, verbosity: Verbosity)
    requires KeepsAll(Matching(Preorder(t.subs), Visible(known, verbosity)),
                      Preorder(Prune(known, t.subs, verbosity)), verbosity)
    ensures KeepsAll(Matching([t.payload] + Preorder(t.subs), Visible(known, verbosity)),
                     Preorder(Prune(known, [t], verbosity)), verbosity)
  {
    var p, subs := Visible(known, verbosity), Prune(known, t.subs, verbosity);
    var all := [t.payload] + Preorder(t.subs);
    assert all[1..] == Preorder(t.subs);
    ShownIsVisible(known, t.payload, verbosity);
    PruneOne(known, t, verbosity);
    if p(t.payload) {
      var kept := Tree(Retain(t.payload, verbosity), subs);
      RetainKeeps(t.payload, verbosity);
      assert [kept][1..] == [];
      assert Preorder([kept]) == [kept.payload] + Preorder(subs);
      KeepsAppend([t.payload], [kept.payload], Matching(Preorder(t.subs), p), Preorder(subs), verbosity);
    }
  }

  /**
    Slot by slot: the slots from 2 on of a filtered built arena are exactly the visible slots of the built
    one, in slot order, with the same trace and event logs and the L2-L1 logs the verbosity shows.
   */
  lemma {:induction false} FilteredSlotsAreVisible(
    known: KnownAddresses, calls: seq<Call>, tx: TxResult, verbosity: Verbosity)
    ensures var built := TraceBuilder.BuiltNodes(known, calls, tx);
            && built != [] && Descends(built)
            && var filtered := FilteredNodes(built[0], Prune(known, Forest(built), verbosity));
               exists shown :: IsSelection(Payloads(built[1..]), Visible(known, verbosity), shown)
                            && KeepsAll(shown, Payloads(filtered[2..]), verbosity)
  {
    var built, f := TraceBuilder.BuiltNodes(known, calls, tx), TraceBuilder.ForestOf(known, tx, calls);
    TraceBuilder.BuildReadsBack(known, calls, tx);
    assert built[1..] == LayForest(Recorded, f, Some(0), 1);
    SlotsInPreorder(Recorded, f, Some(0), 1);
    var pruned := Prune(known, f, verbosity);
    assert FilteredNodes(built[0], pruned)[2..] == LayForest(Rebuilt, pruned, Some(0), 2);
    SlotsInPreorder(Rebuilt, pruned, Some(0), 2);
    PruneKeepsVisible(known, f, verbosity);
    MatchingIsSelection(Preorder(f), Visible(known, verbosity));
  }

  /** Index, parent and children agree in a filtered arena, apart from the orphan in slot 1, which nobody lists. */
  lemma {:induction false} FilteredIsLinked(root: CallTraceNode, f: seq<Tree>)
    ensures var nodes := FilteredNodes(root, f);
            && Descends(nodes) && nodes[0].parent == None && PointsBack(nodes, 0)
            && nodes[1].parent == None && nodes[1].children == []
            && (forall i :: 2 <= i < |nodes| ==> PointsBack(nodes, i) && IsListed(nodes, i))
            && (forall i :: 0 <= i < |nodes| ==> 1 !in nodes[i].children)
  {
    var nodes := FilteredNodes(root, f);
    FilteredReadsBack(root, f);
    assert nodes[2..] == LayForest(Rebuilt, f, Some(0), 2);
    ArenaLinked(Rebuilt, nodes, f, 2);
    RootsInside(f, 2);
    assert forall i, k :: 0 <= i < |nodes| && 0 <= k < |nodes[i].children| ==> i < nodes[i].children[k];
  }
}
