/** Building an arena from recorded calls (crates/traces/src/lib.rs). */
module TraceBuilder {
  import opened Wrappers
  import opened AddressMap
  import opened CallTraces
  import opened TraceForest
  import opened Selections

  function ResultOf(call: CallInfo): ExecutionResult {
    if call.revertReason.Some? then Revert(call.revertReason.value)
    else if call.error.Some? then Halt(call.error.value)
    else Success(call.output)
  }

  function ConvertCallToCallTrace(known: KnownAddresses, call: CallInfo): (r: CallTrace)
    ensures r.success <==> call.revertReason.None? && call.error.None?
    ensures r.executionResult.Revert? <==> call.revertReason.Some?
    ensures r.executionResult.Halt? <==> call.revertReason.None? && call.error.Some?
    ensures call.revertReason.Some? ==> r.executionResult.message == call.revertReason.value
    ensures call.revertReason.None? && call.error.Some? ==> r.executionResult.reason == call.error.value
    ensures r.success ==> r.executionResult.output == call.output
    ensures r.caller == call.from && r.address == call.to && r.call == call
    ensures call.to in known ==> r.contractName == Some(known[call.to].name)
    ensures call.to !in known ==> r.contractName.None?
  {
    var name := if call.to in known then Some(known[call.to].name) else None;
    var result := ResultOf(call);
    CallTrace(!result.IsFailed(), call.from, call.to, result, name, call)
  }

  /** The events emitted by `address`, from position `i` on, each with its position. */
  function LogsFrom(events: seq<VmEvent>, i: nat, address: Address): (logs: seq<CallLog>)
    requires i <= |events|
    ensures forall k :: 0 <= k < |logs| ==>
      i <= logs[k].position < |events| && logs[k].rawLog == events[logs[k].position]
    ensures forall k :: 0 <= k < |logs| ==> logs[k].rawLog.address == address
    ensures forall j, k :: 0 <= j < k < |logs| ==> logs[j].position < logs[k].position
    ensures forall p :: i <= p < |events| && events[p].address == address ==> CallLog(events[p], p) in logs
    decreases |events| - i
  {
    if i == |events| then []
    else (if events[i].address == address then [CallLog(events[i], i)] else []) + LogsFrom(events, i + 1, address)
  }

  /** The logs sent by `address`, in order. */
  function SentBy(logs: seq<L2ToL1Log>, address: Address): (sent: seq<L2ToL1Log>)
    ensures forall x :: x in sent <==> x in logs && x.sender == address
  {
    if logs == [] then []
    else (if logs[0].sender == address then [logs[0]] else []) + SentBy(logs[1..], address)
  }

  function SenderIs(address: Address): L2ToL1Log -> bool {
    (log: L2ToL1Log) => log.sender == address
  }

  /** The logs of the sender are all kept, as often as they occur and in their order. */
  lemma {:induction false} SentBySelects(logs: seq<L2ToL1Log>, address: Address)
    ensures IsSelection(logs, SenderIs(address), SentBy(logs, address))
    ensures forall x: L2ToL1Log :: x.sender == address ==> multiset(SentBy(logs, address))[x] == multiset(logs)[x]
  {
    assert logs != [] ==> logs == [logs[0]] + logs[1..];
    if logs == [] {
      SelectFromNothing(SenderIs(address));
    } else {
      SentBySelects(logs[1..], address);
      SelectFirst(logs, SenderIs(address), SentBy(logs[1..], address));
    }
  }

  function UserEntries(logs: seq<L2ToL1Log>): (r: seq<L2L1Logs>)
    ensures |r| == |logs|
    ensures forall k :: 0 <= k < |r| ==> r[k] == L2L1Logs(User(logs[k]), logs[k].txNumberInBlock)
  {
    seq(|logs|, i requires 0 <= i < |logs| => L2L1Logs(User(logs[i]), logs[i].txNumberInBlock))
  }

  function SystemEntries(logs: seq<L2ToL1Log>): (r: seq<L2L1Logs>)
    ensures |r| == |logs|
    ensures forall k :: 0 <= k < |r| ==> r[k] == L2L1Logs(L2L1Log.System(logs[k]), logs[k].txNumberInBlock)
  {
    seq(|logs|, i requires 0 <= i < |logs| => L2L1Logs(L2L1Log.System(logs[i]), logs[i].txNumberInBlock))
  }

  /** User logs first, then system logs, each positioned by its transaction number. */
  function L2L1LogsFor(tx: TxResult, address: Address): (logs: seq<L2L1Logs>)
    ensures forall k :: 0 <= k < |logs| ==> logs[k].position == logs[k].rawLog.log.txNumberInBlock
    ensures forall j, k :: 0 <= j < k < |logs| && logs[k].rawLog.User? ==> logs[j].rawLog.User?
    ensures var user, system := SentBy(tx.userLogs, address), SentBy(tx.systemLogs, address);
            && |logs| == |user| + |system|
            && logs[..|user|] == UserEntries(user) && logs[|user|..] == SystemEntries(system)
  {
    UserEntries(SentBy(tx.userLogs, address)) + SystemEntries(SentBy(tx.systemLogs, address))
  }

  function PayloadOf(known: KnownAddresses, tx: TxResult, call: CallInfo): Payload {
    Payload(ConvertCallToCallTrace(known, call), LogsFrom(tx.events, 0, call.to), L2L1LogsFor(tx, call.to))
  }

  function TreeOf(known: KnownAddresses, tx: TxResult, call: Call): Tree {
    Tree(PayloadOf(known, tx, call.info),
         seq(|call.calls|, i requires 0 <= i < |call.calls| => TreeOf(known, tx, call.calls[i])))
  }

  /** The forest the recorded calls denote. */
  function ForestOf(known: KnownAddresses, tx: TxResult, calls: seq<Call>): (f: seq<Tree>)
    ensures |f| == |calls|
  {
    seq(|calls|, i requires 0 <= i < |calls| => TreeOf(known, tx, calls[i]))
  }

  /** A node as it is handed to `add_node`. */
  function NodeFor(payload: Payload): CallTraceNode {
    CallTraceNode(None, [], 0, payload.trace, payload.logs, payload.l2L1Logs, [])
  }

  /** Pushing a node through `add_node` is grafting a one-node tree. */
  lemma {:induction false} AddNodeGrafts(nodes: seq<CallTraceNode>, parent: nat, payload: Payload)
    requires parent < |nodes|
    ensures WithNode(nodes, Some(parent), NodeFor(payload)) == Graft(Recorded, nodes, Some(parent), [Tree(payload, [])])
  {
    var leaf := Tree(payload, []);
    var slot, p := |nodes|, nodes[parent];
    assert [leaf][1..] == [];
    assert Roots([leaf], slot) == [slot];
    assert LayForest(Recorded, [leaf], Some(parent), slot) == LayTree(Recorded, leaf, Some(parent), slot);
    assert LogItems(|payload.logs|) + CallItems(0, 0) == LogItems(|payload.logs|);
    assert CallItems(|p.children|, 1) == [TraceMemberOrder.Call(|p.children|)];
  }

  /** Grafting the next call extends the grafted prefix of `calls` by one. */
  lemma {:induction false} GraftNextCall(
    known: KnownAddresses, tx: TxResult, nodes: seq<CallTraceNode>, parent: nat, calls: seq<Call>, i: nat)
    requires parent < |nodes| && i < |calls|
    ensures var done := Graft(Recorded, nodes, Some(parent), ForestOf(known, tx, calls[..i]));
            |nodes| <= |done| &&
            Graft(Recorded, done, Some(parent), [TreeOf(known, tx, calls[i])])
            == Graft(Recorded, nodes, Some(parent), ForestOf(known, tx, calls[..i + 1]))
  {
    var done, next := ForestOf(known, tx, calls[..i]), [TreeOf(known, tx, calls[i])];
    GraftAppend(Recorded, nodes, Some(parent), done, next);
    assert done + next == ForestOf(known, tx, calls[..i + 1]);
  }

  lemma {:induction false} NothingDone(
    known: KnownAddresses, tx: TxResult, nodes: seq<CallTraceNode>, parent: nat, calls: seq<Call>)
    requires parent < |nodes|
    ensures nodes == Graft(Recorded, nodes, Some(parent), ForestOf(known, tx, calls[..0]))
  {
    GraftNothing(Recorded, nodes, Some(parent));
    assert ForestOf(known, tx, calls[..0]) == [];
  }

  /** Adding a call's node and then grafting all its subcalls under it grafts the call. */
  lemma {:induction false} CallGrafted(
    known: KnownAddresses, tx: TxResult, nodes: seq<CallTraceNode>, parent: nat, call: Call)
    requires parent < |nodes|
    ensures var bare := WithNode(nodes, Some(parent), NodeFor(PayloadOf(known, tx, call.info)));
            Graft(Recorded, bare, Some(|nodes|), ForestOf(known, tx, call.calls))
            == Graft(Recorded, nodes, Some(parent), [TreeOf(known, tx, call)])
  {
    var payload := PayloadOf(known, tx, call.info);
    AddNodeGrafts(nodes, parent, payload);
    GraftTree(Recorded, nodes, Some(parent), payload, ForestOf(known, tx, call.calls));
    assert TreeOf(known, tx, call) == Tree(payload, ForestOf(known, tx, call.calls));
  }

  /** The call and everything below it end up in preorder behind the existing nodes, hooked under the parent. */
  method ProcessCallAndSubcalls(
    known: KnownAddresses, call: Call, parentIdx: nat, arena: CallTraceArena, tx: TxResult)
    requires parentIdx < |arena.arena|
    modifies arena
    ensures arena.arena == Graft(Recorded, old(arena.arena), Some(parentIdx), [TreeOf(known, tx, call)])
    decreases call
  {
    var payload := PayloadOf(known, tx, call.info);
    ghost var before := arena.arena;
    var newParentIdx := arena.AddNode(Some(parentIdx), NodeFor(payload));
    ghost var bare := arena.arena;
    NothingDone(known, tx, bare, newParentIdx, call.calls);
    for i := 0 to |call.calls|
      invariant |bare| <= |arena.arena|
      invariant arena.arena == Graft(Recorded, bare, Some(newParentIdx), ForestOf(known, tx, call.calls[..i]))
    {
      GraftNextCall(known, tx, bare, newParentIdx, call.calls, i);
      ProcessCallAndSubcalls(known, call.calls[i], newParentIdx, arena, tx);
    }
    assert call.calls[..|call.calls|] == call.calls;
    CallGrafted(known, tx, before, parentIdx, call);
  }

  function RootNode(tx: TxResult): CallTraceNode {
    DEFAULT_NODE.(trace := DEFAULT_TRACE.(executionResult := tx.result))
  }

  /** The built arena: the root in slot 0, then all calls in preorder. */
  function BuiltNodes(known: KnownAddresses, calls: seq<Call>, tx: TxResult): seq<CallTraceNode> {
    Graft(Recorded, [RootNode(tx)], Some(0), ForestOf(known, tx, calls))
  }

  /** Slot 0 stands for the transaction itself; the recorded calls hang below it. */
  method BuildCallTraceArena(known: KnownAddresses, calls: seq<Call>, tx: TxResult) returns (arena: CallTraceArena)
    ensures fresh(arena)
    ensures arena.arena == BuiltNodes(known, calls, tx)
  {
    arena := new CallTraceArena();
    arena.arena := arena.arena[0 := arena.arena[0].(trace := arena.arena[0].trace.(executionResult := tx.result))];
    NothingDone(known, tx, [RootNode(tx)], 0, calls);
    for i := 0 to |calls|
      invariant arena.arena != []
      invariant arena.arena == Graft(Recorded, [RootNode(tx)], Some(0), ForestOf(known, tx, calls[..i]))
    {
      GraftNextCall(known, tx, [RootNode(tx)], 0, calls, i);
      ProcessCallAndSubcalls(known, calls[i], 0, arena, tx);
    }
    assert calls[..|calls|] == calls;
  }

  /** Reading the built arena from slot 0 gives back the recorded calls. */
  lemma {:induction false} BuildReadsBack(known: KnownAddresses, calls: seq<Call>, tx: TxResult)
    ensures var nodes := BuiltNodes(known, calls, tx);
            nodes != [] && Descends(nodes) && Forest(nodes) == ForestOf(known, tx, calls)
  {
    var f, root := ForestOf(known, tx, calls), [RootNode(tx)];
    var nodes := BuiltNodes(known, calls, tx);
    GraftDescends(Recorded, root, Some(0), f);
    assert nodes[1..1 + ForestSize(f)] == LayForest(Recorded, f, Some(0), 1);
    ReadLaid(Recorded, nodes, f, Some(0), 1);
    assert nodes[0].children == [] + Roots(f, 1) == Roots(f, 1);
  }
}
