/** Calls, trace nodes and the index-linked arena (crates/types/src/traces.rs). */
module CallTraces {
  import opened Wrappers
  import opened AddressMap

  type Bytes = seq<bv8>

  datatype CallType = NormalCall | DelegateCall | MimicCall | NearCall | Create

  /** A call without its subcalls. */
  datatype CallInfo = CallInfo(
    kind: CallType, from: Address, to: Address, gasUsed: nat, value: nat,
    input: Bytes, output: Bytes, error: Option<string>, revertReason: Option<string>)

  datatype Call = Call(info: CallInfo, calls: seq<Call>)

  datatype ExecutionResult = Success(output: Bytes) | Revert(message: string) | Halt(reason: string)
  {
    predicate IsFailed() { Revert? || Halt? }
  }

  datatype CallTrace = CallTrace(
    success: bool, caller: Address, address: Address,
    executionResult: ExecutionResult, contractName: Option<string>, call: CallInfo)

  datatype VmEvent = VmEvent(address: Address, indexedTopics: seq<nat>, value: Bytes)

  datatype CallLog = CallLog(rawLog: VmEvent, position: nat)

  datatype L2ToL1Log = L2ToL1Log(sender: Address, txNumberInBlock: nat, key: nat, value: nat)

  datatype L2L1Log = User(log: L2ToL1Log) | System(log: L2ToL1Log)

  datatype L2L1Logs = L2L1Logs(rawLog: L2L1Log, position: nat)

  /** What the VM reports about a transaction: its result and the logs it emitted. */
  datatype TxResult = TxResult(
    result: ExecutionResult, events: seq<VmEvent>,
    userLogs: seq<L2ToL1Log>, systemLogs: seq<L2ToL1Log>)

  datatype TraceMemberOrder = Log(index: nat) | Call(index: nat) | L1L2Log(index: nat)

  datatype CallTraceNode = CallTraceNode(
    parent: Option<nat>, children: seq<nat>, idx: nat, trace: CallTrace,
    logs: seq<CallLog>, l2L1Logs: seq<L2L1Logs>, ordering: seq<TraceMemberOrder>)

  const DEFAULT_CALL := CallInfo(NormalCall, 0, 0, 0, 0, [], [], None, None)

  const DEFAULT_TRACE := CallTrace(true, 0, 0, Success([]), None, DEFAULT_CALL)

  const DEFAULT_NODE := CallTraceNode(None, [], 0, DEFAULT_TRACE, [], [], [])

  function LogItems(n: nat): (items: seq<TraceMemberOrder>)
    ensures |items| == n
  {
    seq(n, i requires 0 <= i => Log(i))
  }

  function L1L2LogItems(n: nat): (items: seq<TraceMemberOrder>)
    ensures |items| == n
  {
    seq(n, i requires 0 <= i => L1L2Log(i))
  }

  /** The `Call` items of local child positions `from`, ..., `from + n - 1`. */
  function CallItems(from: nat, n: nat): (items: seq<TraceMemberOrder>)
    ensures |items| == n
  {
    seq(n, i requires 0 <= i => TraceMemberOrder.Call(from + i))
  }

  /** Every child sits at a later slot than its parent. */
  ghost predicate Descends(nodes: seq<CallTraceNode>) {
    forall i, k :: 0 <= i < |nodes| && 0 <= k < |nodes[i].children| ==> i < nodes[i].children[k] < |nodes|
  }

  /** The arena after pushing `node` and hooking it under `parent`. */
  function WithNode(nodes: seq<CallTraceNode>, parent: Option<nat>, node: CallTraceNode): (r: seq<CallTraceNode>)
    requires parent.Some? ==> parent.value <= |nodes|
    ensures |r| == |nodes| + 1
  {
    var pushed := nodes + [node.(idx := |nodes|, parent := parent, ordering := LogItems(|node.logs|))];
    if parent.None? then pushed else
    var p := pushed[parent.value];
    pushed[parent.value := p.(children := p.children + [|nodes|],
                              ordering := p.ordering + [TraceMemberOrder.Call(|p.children|)])]
  }

  class CallTraceArena {
    var arena: seq<CallTraceNode>

    /** An arena starts with one default root. */
    constructor ()
      ensures arena == [DEFAULT_NODE]
    {
      arena := [DEFAULT_NODE];
    }

    /** The new node gets the last slot; apart from it only its parent changes. */
    method AddNode(parent: Option<nat>, node: CallTraceNode) returns (idx: nat)
      requires parent.Some? ==> parent.value <= |arena|
      modifies this
      ensures idx == |old(arena)|
      ensures arena == WithNode(old(arena), parent, node)
    {
      idx := |arena|;
      var added := node.(idx := idx, parent := parent);
      added := added.(ordering := LogItems(|added.logs|));
      arena := arena + [added];
      if parent.Some? {
        var p := parent.value;
        arena := arena[p := arena[p].(children := arena[p].children + [idx])];
        var childLocalIdx := |arena[p].children| - 1;
        arena := arena[p := arena[p].(ordering := arena[p].ordering + [TraceMemberOrder.Call(childLocalIdx)])];
      }
    }
  }
}
