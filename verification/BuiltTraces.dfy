/** What an arena built from recorded calls holds, stated on its nodes alone (crates/traces/src/lib.rs). */
module BuiltTraces {
  import opened Wrappers
  import opened AddressMap
  import opened CallTraces
  import opened TraceForest
  import opened TraceBuilder
  import opened TraceLinks
  import opened Selections

  /** The trace describes the call it records: where it went, how it ended, and the name of a known target. */
  ghost predicate Describes(known: KnownAddresses, trace: CallTrace) {
    var call := trace.call;
    && trace.caller == call.from && trace.address == call.to
    && (trace.success <==> call.revertReason.None? && call.error.None?)
    && (call.revertReason.Some? ==> trace.executionResult == Revert(call.revertReason.value))
    && (call.revertReason.None? && call.error.Some? ==> trace.executionResult == Halt(call.error.value))
    && (trace.success ==> trace.executionResult == Success(call.output))
    && trace.contractName == if call.to in known then Some(known[call.to].name) else None
  }

  /** The node's logs are exactly the events of its contract, each with its position, in order. */
  ghost predicate HoldsEvents(node: CallTraceNode, events: seq<VmEvent>) {
    && (forall k :: 0 <= k < |node.logs| ==>
          && node.logs[k].position < |events| && node.logs[k].rawLog == events[node.logs[k].position]
          && events[node.logs[k].position].address == node.trace.address)
    && (forall j, k :: 0 <= j < k < |node.logs| ==> node.logs[j].position < node.logs[k].position)
    && (forall p :: 0 <= p < |events| && events[p].address == node.trace.address ==>
          CallLog(events[p], p) in node.logs)
  }

  function RawLogs(entries: seq<L2L1Logs>): (logs: seq<L2ToL1Log>)
    ensures |logs| == |entries|
    ensures forall k :: 0 <= k < |entries| ==> logs[k] == entries[k].rawLog.log
  {
    seq(|entries|, i requires 0 <= i < |entries| => entries[i].rawLog.log)
  }

  /** The first `n` L2-L1 logs are exactly the user logs sent by the contract, the others its system logs. */
  ghost predicate SplitsL2L1(node: CallTraceNode, tx: TxResult, n: nat) {
    && n <= |node.l2L1Logs|
    && (forall k :: 0 <= k < |node.l2L1Logs| ==>
          && (node.l2L1Logs[k].rawLog.User? <==> k < n)
          && node.l2L1Logs[k].position == node.l2L1Logs[k].rawLog.log.txNumberInBlock)
    && IsSelection(tx.userLogs, SenderIs(node.trace.address), RawLogs(node.l2L1Logs[..n]))
    && IsSelection(tx.systemLogs, SenderIs(node.trace.address), RawLogs(node.l2L1Logs[n..]))
  }

  ghost predicate HoldsL2L1Logs(node: CallTraceNode, tx: TxResult) { exists n :: SplitsL2L1(node, tx, n) }

  ghost predicate Faithful(known: KnownAddresses, tx: TxResult, node: CallTraceNode) {
    Describes(known, node.trace) && HoldsEvents(node, tx.events) && HoldsL2L1Logs(node, tx)
  }

  lemma {:induction false} EventsHeld(tx: TxResult, node: CallTraceNode)
    requires node.logs == LogsFrom(tx.events, 0, node.trace.address)
    ensures HoldsEvents(node, tx.events)
  {
  }

  lemma {:induction false} L2L1LogsHeld(tx: TxResult, node: CallTraceNode)
    requires node.l2L1Logs == L2L1LogsFor(tx, node.trace.address)
    ensures HoldsL2L1Logs(node, tx)
  {
    var a := node.trace.address;
    var user, system := SentBy(tx.userLogs, a), SentBy(tx.systemLogs, a);
    SentBySelects(tx.userLogs, a);
    SentBySelects(tx.systemLogs, a);
    EntriesSplit(node.l2L1Logs, user, system);
    assert SplitsL2L1(node, tx, |user|);
  }

  lemma {:induction false} EntriesSplit(entries: seq<L2L1Logs>, user: seq<L2ToL1Log>, system: seq<L2ToL1Log>)
    requires entries == UserEntries(user) + SystemEntries(system)
    ensures |user| <= |entries|
    ensures RawLogs(entries[..|user|]) == user && RawLogs(entries[|user|..]) == system
    ensures forall k :: 0 <= k < |entries| ==>
      && (entries[k].rawLog.User? <==> k < |user|)
      && entries[k].position == entries[k].rawLog.log.txNumberInBlock
  {
    var a, b := UserEntries(user), SystemEntries(system);
    assert entries[..|user|] == a && entries[|user|..] == b;
    forall k | 0 <= k < |entries|
      ensures entries[k].rawLog.User? <==> k < |user|
      ensures entries[k].position == entries[k].rawLog.log.txNumberInBlock
    {
      assert entries[k] == if k < |user| then a[k] else b[k - |user|];
    }
  }

  lemma {:induction false} NodeIsFaithful(known: KnownAddresses, tx: TxResult, call: CallInfo, node: CallTraceNode)
    requires PayloadAt(node) == PayloadOf(known, tx, call)
    ensures Faithful(known, tx, node)
  {
    EventsHeld(tx, node);
    L2L1LogsHeld(tx, node);
  }

  ghost predicate AllFaithful(known: KnownAddresses, tx: TxResult, nodes: seq<CallTraceNode>) {
    forall i :: 0 <= i < |nodes| ==> Faithful(known, tx, nodes[i])
  }

  lemma {:induction false} FaithfulAppend(
    known: KnownAddresses, tx: TxResult, a: seq<CallTraceNode>, b: seq<CallTraceNode>)
    requires AllFaithful(known, tx, a) && AllFaithful(known, tx, b)
    ensures AllFaithful(known, tx, a + b)
  {
    var all := a + b;
    forall i | 0 <= i < |all|
      ensures Faithful(known, tx, all[i])
    {
      if i < |a| {
        assert all[i] == a[i];
      } else {
        assert all[i] == b[i - |a|];
      }
    }
  }

  lemma {:induction false} ForestSplits(known: KnownAddresses, tx: TxResult, calls: seq<Call>)
    requires calls != []
    ensures var f := ForestOf(known, tx, calls);
            f[0] == TreeOf(known, tx, calls[0]) && f[1..] == ForestOf(known, tx, calls[1..])
  {
  }

  /** The layout of several calls is that of the first, then that of the others. */
  lemma {:induction false} LaidCallByCall(
    known: KnownAddresses, tx: TxResult, calls: seq<Call>, parent: Option<nat>, base: nat)
    requires calls != []
    ensures var t, rest := TreeOf(known, tx, calls[0]), ForestOf(known, tx, calls[1..]);
            LayForest(Recorded, ForestOf(known, tx, calls), parent, base)
            == LayTree(Recorded, t, parent, base) + LayForest(Recorded, rest, parent, base + Size(t))
  {
    ForestSplits(known, tx, calls);
    LayUnfold(Recorded, ForestOf(known, tx, calls), parent, base);
  }

  lemma {:induction false} LaidTreeIsFaithful(
    known: KnownAddresses, tx: TxResult, call: Call, parent: Option<nat>, base: nat)
    ensures AllFaithful(known, tx, LayTree(Recorded, TreeOf(known, tx, call), parent, base))
    decreases call, 1
  {
    var t := TreeOf(known, tx, call);
    assert t.subs == ForestOf(known, tx, call.calls);
    LaidAreFaithful(known, tx, call.calls, Some(base), base + 1);
    var node := NodeAt(Recorded, t, parent, base);
    NodeIsFaithful(known, tx, call.info, node);
    FaithfulAppend(known, tx, [node], LayForest(Recorded, t.subs, Some(base), base + 1));
  }

  lemma {:induction false} LaidAreFaithful(
    known: KnownAddresses, tx: TxResult, calls: seq<Call>, parent: Option<nat>, base: nat)
    ensures AllFaithful(known, tx, LayForest(Recorded, ForestOf(known, tx, calls), parent, base))
    decreases calls, 0
  {
    if calls != [] {
      var t, rest := TreeOf(known, tx, calls[0]), ForestOf(known, tx, calls[1..]);
      LaidTreeIsFaithful(known, tx, calls[0], parent, base);
      LaidAreFaithful(known, tx, calls[1..], parent, base + Size(t));
      FaithfulAppend(known, tx, LayTree(Recorded, t, parent, base), LayForest(Recorded, rest, parent, base + Size(t)));
      LaidCallByCall(known, tx, calls, parent, base);
    }
  }

  /**
    Every slot but the root of a built arena describes its call, holds exactly the events of the called
    contract and exactly the L2-L1 logs that contract sent; the root carries the transaction's result.
   */
  lemma {:induction false} BuiltNodesAreFaithful(known: KnownAddresses, calls: seq<Call>, tx: TxResult)
    ensures var nodes := BuiltNodes(known, calls, tx);
            && nodes != [] && nodes[0].trace.executionResult == tx.result
            && nodes[0].logs == [] && nodes[0].l2L1Logs == []
            && AllFaithful(known, tx, nodes[1..])
  {
    var f := ForestOf(known, tx, calls);
    LaidAreFaithful(known, tx, calls, Some(0), 1);
    assert BuiltNodes(known, calls, tx)[1..] == LayForest(Recorded, f, Some(0), 1);
  }

  // ---------- The recorded calls themselves ----------

  /** The calls that the traces of a forest record, nested and ordered as the forest is. */
  function CallsIn(f: seq<Tree>): seq<Call> {
    if f == [] then []
    else [Call.Call(f[0].payload.trace.call, CallsIn(f[0].subs))] + CallsIn(f[1..])
  }

  lemma {:induction false} ForestRecordsCalls(known: KnownAddresses, tx: TxResult, calls: seq<Call>)
    ensures CallsIn(ForestOf(known, tx, calls)) == calls
    decreases calls
  {
    if calls != [] {
      var f := ForestOf(known, tx, calls);
      assert f[1..] == ForestOf(known, tx, calls[1..]);
      assert f[0].subs == ForestOf(known, tx, calls[0].calls);
      ForestRecordsCalls(known, tx, calls[0].calls);
      ForestRecordsCalls(known, tx, calls[1..]);
    }
  }

  /** Reading a built arena through its children from slot 0 on gives back the recorded calls, subcalls and all. */
  lemma {:induction false} BuildRecordsCalls(known: KnownAddresses, calls: seq<Call>, tx: TxResult)
    ensures var nodes := BuiltNodes(known, calls, tx);
            nodes != [] && Descends(nodes) && CallsIn(Forest(nodes)) == calls
  {
    BuildReadsBack(known, calls, tx);
    ForestRecordsCalls(known, tx, calls);
  }

  /** Index, parent and children of all nodes of a built arena agree. */
  lemma {:induction false} BuiltIsLinked(known: KnownAddresses, calls: seq<Call>, tx: TxResult)
    ensures var nodes := BuiltNodes(known, calls, tx);
            && nodes != [] && Descends(nodes) && nodes[0].parent == None && PointsBack(nodes, 0)
            && forall i :: 1 <= i < |nodes| ==> PointsBack(nodes, i) && IsListed(nodes, i)
  {
    var nodes, f := BuiltNodes(known, calls, tx), ForestOf(known, tx, calls);
    BuildReadsBack(known, calls, tx);
    assert nodes[0].children == [] + Roots(f, 1) == Roots(f, 1);
    assert nodes[1..] == LayForest(Recorded, f, Some(0), 1);
    ArenaLinked(Recorded, nodes, f, 1);
  }
}
