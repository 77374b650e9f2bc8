/** Printing an arena (crates/traces/src/writer.rs), at the level of lines. */
module TraceWriter {
  import opened Wrappers
  import opened AddressMap
  import opened CallTraces
  import opened TraceForest
  import TraceBuilder
  import TraceFilter
  import TracePruning

  const LEVELS := 0x1_0000

  /** `indentation_level`: 16 bits, wrapping as in a release build. */
  type Level = l: int | 0 <= l < LEVELS

  /** The writer's settings, colours aside. */
  datatype Config = Config(writeBytecodes: bool)

  /** The contract a call goes to: its label if it has one, else its address. */
  datatype Target = Labelled(name: string) | Unlabelled(address: Address)

  /** What a header line shows; the creation code only if bytecodes are asked for. */
  datatype Header =
    | NewHeader(gasUsed: nat, name: Option<string>, address: Address, code: Option<Bytes>)
    | CallHeader(gasUsed: nat, target: Target, value: nat, input: Bytes, kind: CallType)

  datatype Status = Succeeded | Reverted(message: string) | Halted(reason: string)

  /** What came back: the bytes, or for a created contract just their number. */
  datatype Returned = Output(bytes: Bytes) | CodeSize(size: nat)

  datatype Footer = Footer(status: Status, returned: Returned)

  /** An event shows its topics and data, but neither its address nor its position. */
  datatype ShownLog = ShownLog(topics: seq<nat>, data: Bytes)

  /** An L2-L1 log shows its kind, key and value. */
  datatype ShownL2L1Log = ShownL2L1Log(system: bool, key: nat, value: nat)

  datatype Line =
    | HeaderLine(level: Level, header: Header)
    | LogLine(level: Level, log: ShownLog)
    | L2L1Line(level: Level, l2L1Log: ShownL2L1Log)
    | FooterLine(level: Level, footer: Footer)

  function HeaderOf(config: Config, trace: CallTrace): Header {
    var call := trace.call;
    if call.kind.Create? then
      NewHeader(call.gasUsed, trace.contractName, call.to, if config.writeBytecodes then Some(call.input) else None)
    else
      var target := if trace.contractName.Some? then Labelled(trace.contractName.value) else Unlabelled(call.to);
      CallHeader(call.gasUsed, target, call.value, call.input, call.kind)
  }

  function StatusOf(result: ExecutionResult): Status {
    match result
    case Success(_) => Succeeded
    case Revert(message) => Reverted(message)
    case Halt(reason) => Halted(reason)
  }

  function FooterOf(config: Config, trace: CallTrace): Footer {
    var output := trace.call.output;
    var sizeOnly := !config.writeBytecodes && trace.call.kind.Create? && !trace.executionResult.IsFailed();
    Footer(StatusOf(trace.executionResult), if sizeOnly then CodeSize(|output|) else Output(output))
  }

  /** Field by field what header and footer show of a call. */
  lemma {:induction false} CallLinesShowTheCall(config: Config, trace: CallTrace)
    ensures var call, header := trace.call, HeaderOf(config, trace);
            && header.gasUsed == call.gasUsed
            && (header.NewHeader? <==> call.kind == Create)
            && (call.kind == Create ==>
                  && header.name == trace.contractName && header.address == call.to
                  && header.code == if config.writeBytecodes then Some(call.input) else None)
            && (call.kind != Create ==>
                  && header.kind == call.kind && header.value == call.value && header.input == call.input
                  && (trace.contractName.Some? ==> header.target == Labelled(trace.contractName.value))
                  && (trace.contractName.None? ==> header.target == Unlabelled(call.to)))
    ensures var call, footer := trace.call, FooterOf(config, trace);
            && (footer.status.Succeeded? <==> trace.executionResult.Success?)
            && (trace.executionResult.Revert? ==> footer.status == Reverted(trace.executionResult.message))
            && (trace.executionResult.Halt? ==> footer.status == Halted(trace.executionResult.reason))
            && (call.kind == Create && trace.executionResult.Success? && !config.writeBytecodes ==>
                  footer.returned == CodeSize(|call.output|))
            && (call.kind != Create || !trace.executionResult.Success? || config.writeBytecodes ==>
                  footer.returned == Output(call.output))
  {
    match trace.executionResult
    case Success(_) =>
    case Revert(_) =>
    case Halt(_) =>
  }

  /** Field by field what log lines show. */
  lemma {:induction false} LogLinesShowTheLogs(log: CallLog, l2L1Log: L2L1Logs)
    ensures ShowLog(log).topics == log.rawLog.indexedTopics && ShowLog(log).data == log.rawLog.value
    ensures ShowL2L1Log(l2L1Log).system <==> !l2L1Log.rawLog.User?
    ensures ShowL2L1Log(l2L1Log).key == l2L1Log.rawLog.log.key
    ensures ShowL2L1Log(l2L1Log).value == l2L1Log.rawLog.log.value
  {
  }

  function ShowLog(log: CallLog): ShownLog { ShownLog(log.rawLog.indexedTopics, log.rawLog.value) }

  function ShowL2L1Log(log: L2L1Logs): ShownL2L1Log {
    ShownL2L1Log(log.rawLog.System?, log.rawLog.log.key, log.rawLog.log.value)
  }

  function ShowLogs(logs: seq<CallLog>): (shown: seq<ShownLog>)
    ensures |shown| == |logs|
  {
    seq(|logs|, i requires 0 <= i < |logs| => ShowLog(logs[i]))
  }

  function ShowL2L1Logs(logs: seq<L2L1Logs>): (shown: seq<ShownL2L1Log>)
    ensures |shown| == |logs|
  {
    seq(|logs|, i requires 0 <= i < |logs| => ShowL2L1Log(logs[i]))
  }

  function Deeper(level: Level): Level { (level + 1) % LEVELS }

  /** Every ordering item names an existing log or child. */
  ghost predicate WellOrdered(nodes: seq<CallTraceNode>) {
    forall i, k :: 0 <= i < |nodes| && 0 <= k < |nodes[i].ordering| ==>
      match nodes[i].ordering[k]
      case Log(index) => index < |nodes[i].logs|
      case Call(index) => index < |nodes[i].children|
      case L1L2Log(index) => index < |nodes[i].l2L1Logs|
  }

  // ---------- What the recursive writer emits ----------

  function RenderNode(config: Config, nodes: seq<CallTraceNode>, idx: nat, level: Level): seq<Line>
    requires Descends(nodes) && WellOrdered(nodes) && idx < |nodes|
    decreases |nodes| - idx, |nodes[idx].ordering| + 1
  {
    [HeaderLine(level, HeaderOf(config, nodes[idx].trace))]
    + RenderItems(config, nodes, idx, |nodes[idx].ordering|, Deeper(level))
    + [FooterLine(Deeper(level), FooterOf(config, nodes[idx].trace))]
  }

  /** The first `n` items of a node. */
  function RenderItems(config: Config, nodes: seq<CallTraceNode>, idx: nat, n: nat, level: Level): seq<Line>
    requires Descends(nodes) && WellOrdered(nodes) && idx < |nodes| && n <= |nodes[idx].ordering|
    decreases |nodes| - idx, n
  {
    if n == 0 then []
    else RenderItems(config, nodes, idx, n - 1, level) + RenderItem(config, nodes, idx, n - 1, level)
  }

  function RenderItem(config: Config, nodes: seq<CallTraceNode>, idx: nat, item: nat, level: Level): seq<Line>
    requires Descends(nodes) && WellOrdered(nodes) && idx < |nodes| && item < |nodes[idx].ordering|
    decreases |nodes| - idx, 0
  {
    match nodes[idx].ordering[item]
    case Log(index) => [LogLine(level, ShowLog(nodes[idx].logs[index]))]
    case Call(index) => RenderNode(config, nodes, nodes[idx].children[index], level)
    case L1L2Log(index) => [L2L1Line(level, ShowL2L1Log(nodes[idx].l2L1Logs[index]))]
  }

  function RenderNodes(config: Config, nodes: seq<CallTraceNode>, slots: seq<nat>, level: Level): seq<Line>
    requires Descends(nodes) && WellOrdered(nodes) && forall k :: 0 <= k < |slots| ==> slots[k] < |nodes|
  {
    if slots == [] then []
    else RenderNodes(config, nodes, slots[..|slots| - 1], level) + RenderNode(config, nodes, slots[|slots| - 1], level)
  }

  class TraceWriter {
    const config: Config
    var output: seq<Line>
    var indentationLevel: Level

    constructor (config: Config)
      ensures this.config == config && output == [] && indentationLevel == 0
    {
      this.config, output, indentationLevel := config, [], 0;
    }

    /** The calls below slot 0 are written at the writer's own level; the root itself is not shown. */
    method WriteArena(nodes: seq<CallTraceNode>)
      requires Descends(nodes) && WellOrdered(nodes) && nodes != []
      modifies this
      ensures output == old(output) + RenderNodes(config, nodes, nodes[0].children, old(indentationLevel))
      ensures indentationLevel == old(indentationLevel)
    {
      var children := nodes[0].children;
      for i := 0 to |children|
        invariant indentationLevel == old(indentationLevel)
        invariant output == old(output) + RenderNodes(config, nodes, children[..i], indentationLevel)
      {
        WriteNode(nodes, children[i]);
        assert children[..i + 1][..i] == children[..i];
      }
      assert children[..|children|] == children;
    }

    /** Between header and footer everything is written one level deeper. */
    method WriteNode(nodes: seq<CallTraceNode>, idx: nat)
      requires Descends(nodes) && WellOrdered(nodes) && idx < |nodes|
      modifies this
      ensures output == old(output) + RenderNode(config, nodes, idx, old(indentationLevel))
      ensures indentationLevel == old(indentationLevel)
      decreases |nodes| - idx, |nodes[idx].ordering| + 3
    {
      var trace := nodes[idx].trace;
      output := output + [HeaderLine(indentationLevel, HeaderOf(config, trace))];
      indentationLevel := (indentationLevel + 1) % LEVELS;
      WriteItems(nodes, idx);
      output := output + [FooterLine(indentationLevel, FooterOf(config, trace))];
      indentationLevel := (indentationLevel - 1) % LEVELS;
    }

    /** Everything the node's ordering names, first to last. */
    method WriteItems(nodes: seq<CallTraceNode>, idx: nat)
      requires Descends(nodes) && WellOrdered(nodes) && idx < |nodes|
      modifies this
      ensures output == old(output) + RenderItems(config, nodes, idx, |nodes[idx].ordering|, old(indentationLevel))
      ensures indentationLevel == old(indentationLevel)
      decreases |nodes| - idx, |nodes[idx].ordering| + 2
    {
      var itemsCount := |nodes[idx].ordering|;
      var isEnd := (item: nat) => item == itemsCount;
      assert isEnd(itemsCount);
      var next := WriteItemsUntil(nodes, idx, 0, isEnd);
    }

    /** Stops at the first position from `first` on that satisfies `stop`; there is one within the ordering. */
    method WriteItemsUntil(nodes: seq<CallTraceNode>, idx: nat, first: nat, stop: nat -> bool) returns (next: nat)
      requires Descends(nodes) && WellOrdered(nodes) && idx < |nodes|
      requires exists k :: first <= k <= |nodes[idx].ordering| && stop(k)
      modifies this
      ensures first <= next <= |nodes[idx].ordering| && stop(next)
      ensures forall k :: first <= k < next ==> !stop(k)
      ensures old(output) <= output
      ensures RenderItems(config, nodes, idx, first, indentationLevel) + output[|old(output)|..]
           == RenderItems(config, nodes, idx, next, indentationLevel)
      ensures indentationLevel == old(indentationLevel)
      decreases |nodes| - idx, |nodes[idx].ordering| + 1
    {
      next := first;
      while !stop(next)
        invariant first <= next <= |nodes[idx].ordering|
        invariant forall k :: first <= k < next ==> !stop(k)
        invariant old(output) <= output
        invariant indentationLevel == old(indentationLevel)
        invariant RenderItems(config, nodes, idx, first, indentationLevel) + output[|old(output)|..]
               == RenderItems(config, nodes, idx, next, indentationLevel)
        decreases |nodes[idx].ordering| - next
      {
        ghost var before := output;
        next := WriteItem(nodes, idx, next);
        assert output[|old(output)|..] == before[|old(output)|..] + output[|before|..];
      }
    }

    /** One ordering item: a log line, an L2-L1 log line or a whole subtree. */
    method WriteItem(nodes: seq<CallTraceNode>, idx: nat, item: nat) returns (next: nat)
      requires Descends(nodes) && WellOrdered(nodes) && idx < |nodes| && item < |nodes[idx].ordering|
      modifies this
      ensures next == item + 1
      ensures output == old(output) + RenderItem(config, nodes, idx, item, old(indentationLevel))
      ensures indentationLevel == old(indentationLevel)
      decreases |nodes| - idx, 0
    {
      match nodes[idx].ordering[item] {
        case Log(index) =>
          output := output + [LogLine(indentationLevel, ShowLog(nodes[idx].logs[index]))];
        case Call(index) =>
          WriteNode(nodes, nodes[idx].children[index]);
        case L1L2Log(index) =>
          output := output + [L2L1Line(indentationLevel, ShowL2L1Log(nodes[idx].l2L1Logs[index]))];
      }
      next := item + 1;
    }
  }

  // ---------- What is written for a filtered forest ----------

  function LogLines(logs: seq<CallLog>, level: Level): (r: seq<Line>)
    ensures |r| == |logs|
  {
    seq(|logs|, i requires 0 <= i < |logs| => LogLine(level, ShowLog(logs[i])))
  }

  function L2L1Lines(logs: seq<L2L1Logs>, level: Level): (r: seq<Line>)
    ensures |r| == |logs|
  {
    seq(|logs|, i requires 0 <= i < |logs| => L2L1Line(level, ShowL2L1Log(logs[i])))
  }

  /** The printout of a forest: for each call its header, logs, L2-L1 logs, subcalls and footer. */
  function Printout(config: Config, f: seq<Tree>, level: Level): seq<Line> {
    if f == [] then []
    else [HeaderLine(level, HeaderOf(config, f[0].payload.trace))]
         + LogLines(f[0].payload.logs, Deeper(level))
         + L2L1Lines(f[0].payload.l2L1Logs, Deeper(level))
         + Printout(config, f[0].subs, Deeper(level))
         + [FooterLine(Deeper(level), FooterOf(config, f[0].payload.trace))]
         + Printout(config, f[1..], level)
  }

  lemma {:induction false} PrintoutAppend(config: Config, f: seq<Tree>, g: seq<Tree>, level: Level)
    ensures Printout(config, f + g, level) == Printout(config, f, level) + Printout(config, g, level)
  {
    if f == [] {
      assert f + g == g;
    } else {
      assert (f + g)[1..] == f[1..] + g;
      PrintoutAppend(config, f[1..], g, level);
    }
  }

  lemma {:induction false} PrintoutOne(config: Config, t: Tree, level: Level)
    ensures Printout(config, [t], level)
         == [HeaderLine(level, HeaderOf(config, t.payload.trace))]
            + (LogLines(t.payload.logs, Deeper(level)) + L2L1Lines(t.payload.l2L1Logs, Deeper(level))
               + Printout(config, t.subs, Deeper(level)))
            + [FooterLine(Deeper(level), FooterOf(config, t.payload.trace))]
  {
    assert [t][1..] == [];
  }

  /** All slots from `from` on carry a rebuilt ordering. */
  ghost predicate RebuiltFrom(nodes: seq<CallTraceNode>, from: nat) {
    forall i :: from <= i < |nodes| ==>
      nodes[i].ordering == Ordering(Rebuilt, PayloadAt(nodes[i]), |nodes[i].children|)
  }

  lemma {:induction false} RebuiltIsWellOrdered(nodes: seq<CallTraceNode>)
    requires RebuiltFrom(nodes, 0)
    ensures WellOrdered(nodes)
  {
    forall i, k | 0 <= i < |nodes| && 0 <= k < |nodes[i].ordering|
      ensures match nodes[i].ordering[k]
              case Log(index) => index < |nodes[i].logs|
              case Call(index) => index < |nodes[i].children|
              case L1L2Log(index) => index < |nodes[i].l2L1Logs|
    {
      var a, b := |nodes[i].logs|, |nodes[i].l2L1Logs|;
      assert nodes[i].ordering[k] == if k < a then Log(k) else if k < a + b then L1L2Log(k - a)
                                     else TraceMemberOrder.Call(k - a - b);
    }
  }

  lemma {:induction false} RenderLogItems(config: Config, nodes: seq<CallTraceNode>, idx: nat, n: nat, level: Level)
    requires Descends(nodes) && WellOrdered(nodes) && idx < |nodes| && n <= |nodes[idx].logs|
    requires RebuiltFrom(nodes, 0)
    ensures RenderItems(config, nodes, idx, n, level) == LogLines(nodes[idx].logs[..n], level)
  {
    if n > 0 {
      RenderLogItems(config, nodes, idx, n - 1, level);
      assert nodes[idx].ordering[n - 1] == Log(n - 1);
    }
  }

  lemma {:induction false} RenderL2L1Items(config: Config, nodes: seq<CallTraceNode>, idx: nat, n: nat, level: Level)
    requires Descends(nodes) && WellOrdered(nodes) && idx < |nodes| && n <= |nodes[idx].l2L1Logs|
    requires RebuiltFrom(nodes, 0)
    ensures RenderItems(config, nodes, idx, |nodes[idx].logs| + n, level)
         == LogLines(nodes[idx].logs, level) + L2L1Lines(nodes[idx].l2L1Logs[..n], level)
  {
    var a := |nodes[idx].logs|;
    if n == 0 {
      RenderLogItems(config, nodes, idx, a, level);
      assert nodes[idx].logs[..a] == nodes[idx].logs;
    } else {
      RenderL2L1Items(config, nodes, idx, n - 1, level);
      assert nodes[idx].ordering[a + n - 1] == L1L2Log(n - 1);
      assert L2L1Lines(nodes[idx].l2L1Logs[..n], level)
          == L2L1Lines(nodes[idx].l2L1Logs[..n - 1], level)
             + [L2L1Line(level, ShowL2L1Log(nodes[idx].l2L1Logs[n - 1]))];
    }
  }

  /** The lines of a node's logs, its L2-L1 logs and its first `n` subcalls. */
  ghost function FirstLines(config: Config, nodes: seq<CallTraceNode>, idx: nat, n: nat, level: Level): seq<Line>
    requires Descends(nodes) && idx < |nodes| && n <= |nodes[idx].children|
  {
    LogLines(nodes[idx].logs, level) + L2L1Lines(nodes[idx].l2L1Logs, level)
    + Printout(config, ReadForest(nodes, nodes[idx].children[..n]), level)
  }

  lemma {:induction false} RenderCallItems(config: Config, nodes: seq<CallTraceNode>, idx: nat, n: nat, level: Level)
    requires Descends(nodes) && WellOrdered(nodes) && idx < |nodes| && n <= |nodes[idx].children|
    requires RebuiltFrom(nodes, 0)
    ensures RenderItems(config, nodes, idx, |nodes[idx].logs| + |nodes[idx].l2L1Logs| + n, level)
         == FirstLines(config, nodes, idx, n, level)
    decreases |nodes| - idx, n
  {
    if n == 0 {
      var l2L1Logs := nodes[idx].l2L1Logs;
      RenderL2L1Items(config, nodes, idx, |l2L1Logs|, level);
      assert l2L1Logs[..|l2L1Logs|] == l2L1Logs;
      assert ReadForest(nodes, nodes[idx].children[..0]) == [];
    } else {
      RenderCallItems(config, nodes, idx, n - 1, level);
      RenderIsPrintout(config, nodes, nodes[idx].children[n - 1], level);
      RenderOneMoreCall(config, nodes, idx, n, level);
      FirstLinesGrow(config, nodes, idx, n, level);
    }
  }

  lemma {:induction false} RenderOneMoreCall(config: Config, nodes: seq<CallTraceNode>, idx: nat, n: nat, level: Level)
    requires Descends(nodes) && WellOrdered(nodes) && idx < |nodes| && 0 < n <= |nodes[idx].children|
    requires RebuiltFrom(nodes, 0)
    ensures var items := |nodes[idx].logs| + |nodes[idx].l2L1Logs| + n;
            RenderItems(config, nodes, idx, items, level)
            == RenderItems(config, nodes, idx, items - 1, level)
               + RenderNode(config, nodes, nodes[idx].children[n - 1], level)
  {
    assert nodes[idx].ordering[|nodes[idx].logs| + |nodes[idx].l2L1Logs| + n - 1] == TraceMemberOrder.Call(n - 1);
  }

  lemma {:induction false} FirstLinesGrow(config: Config, nodes: seq<CallTraceNode>, idx: nat, n: nat, level: Level)
    requires Descends(nodes) && idx < |nodes| && 0 < n <= |nodes[idx].children|
    ensures FirstLines(config, nodes, idx, n, level)
         == FirstLines(config, nodes, idx, n - 1, level)
            + Printout(config, [ReadTree(nodes, nodes[idx].children[n - 1])], level)
  {
    var children := nodes[idx].children;
    var done, last := ReadForest(nodes, children[..n - 1]), [ReadTree(nodes, children[n - 1])];
    assert ReadForest(nodes, children[..n]) == done + last;
    PrintoutAppend(config, done, last, level);
  }

  /** The index-driven writer prints the tree hanging from the slot. */
  lemma {:induction false} RenderIsPrintout(config: Config, nodes: seq<CallTraceNode>, idx: nat, level: Level)
    requires Descends(nodes) && WellOrdered(nodes) && idx < |nodes|
    requires RebuiltFrom(nodes, 0)
    ensures RenderNode(config, nodes, idx, level) == Printout(config, [ReadTree(nodes, idx)], level)
    decreases |nodes| - idx, |nodes[idx].children| + 1
  {
    var node := nodes[idx];
    RenderCallItems(config, nodes, idx, |node.children|, Deeper(level));
    assert node.children[..|node.children|] == node.children;
    PrintoutOne(config, ReadTree(nodes, idx), level);
    assert ReadTree(nodes, idx).subs == ReadForest(nodes, node.children);
  }

  lemma {:induction false} RenderNodesIsPrintout(
    config: Config, nodes: seq<CallTraceNode>, slots: seq<nat>, level: Level)
    requires Descends(nodes) && WellOrdered(nodes) && RebuiltFrom(nodes, 0)
    requires forall k :: 0 <= k < |slots| ==> slots[k] < |nodes|
    ensures RenderNodes(config, nodes, slots, level) == Printout(config, ReadForest(nodes, slots), level)
  {
    if slots != [] {
      var n := |slots| - 1;
      RenderNodesIsPrintout(config, nodes, slots[..n], level);
      RenderIsPrintout(config, nodes, slots[n], level);
      assert ReadForest(nodes, slots) == ReadForest(nodes, slots[..n]) + [ReadTree(nodes, slots[n])];
      PrintoutAppend(config, ReadForest(nodes, slots[..n]), [ReadTree(nodes, slots[n])], level);
    }
  }

  lemma {:induction false} LaidIsRebuilt(f: seq<Tree>, parent: Option<nat>, base: nat)
    ensures RebuiltFrom(LayForest(Rebuilt, f, parent, base), 0)
    decreases f
  {
    if f != [] {
      LaidIsRebuilt(f[0].subs, Some(base), base + 1);
      LaidIsRebuilt(f[1..], parent, base + Size(f[0]));
      var below := LayForest(Rebuilt, f[0].subs, Some(base), base + 1);
      var rest := LayForest(Rebuilt, f[1..], parent, base + Size(f[0]));
      var all := LayForest(Rebuilt, f, parent, base);
      forall i | 0 <= i < |all|
        ensures all[i].ordering == Ordering(Rebuilt, PayloadAt(all[i]), |all[i].children|)
      {
        if i < Size(f[0]) {
          var tree := LayTree(Rebuilt, f[0], parent, base);
          assert all[i] == tree[i];
          assert i > 0 ==> tree[i] == below[i - 1];
        } else if i >= Size(f[0]) {
          assert all[i] == rest[i - Size(f[0])];
        }
      }
    }
  }

  /** Writing a filtered arena prints exactly the forest it holds. */
  lemma {:induction false} FilteredPrintout(config: Config, root: CallTraceNode, f: seq<Tree>, level: Level)
    ensures var nodes := TraceFilter.FilteredNodes(root, f);
            && Descends(nodes) && WellOrdered(nodes)
            && RenderNodes(config, nodes, nodes[0].children, level) == Printout(config, f, level)
  {
    var nodes := TraceFilter.FilteredNodes(root, f);
    TraceFilter.FilteredReadsBack(root, f);
    LaidIsRebuilt(f, Some(0), 2);
    var laid := LayForest(Rebuilt, f, Some(0), 2);
    forall i | 0 <= i < |nodes|
      ensures nodes[i].ordering == Ordering(Rebuilt, PayloadAt(nodes[i]), |nodes[i].children|)
    {
      if i >= 2 {
        assert nodes[i] == laid[i - 2];
      } else if i == 0 {
        assert LogItems(0) + L1L2LogItems(0) + CallItems(0, |f|) == CallItems(0, |f|);
      }
    }
    RebuiltIsWellOrdered(nodes);
    RenderNodesIsPrintout(config, nodes, nodes[0].children, level);
  }

  // ---------- The printout determines the forest ----------

  /** A call as it can be read off the printed lines. */
  datatype Printed = Printed(header: Header, logs: seq<ShownLog>, l2L1Logs: seq<ShownL2L1Log>,
                             subs: seq<Printed>, footer: Footer)

  function PrintedCall(config: Config, p: Payload, subs: seq<Printed>): Printed {
    Printed(HeaderOf(config, p.trace), ShowLogs(p.logs), ShowL2L1Logs(p.l2L1Logs), subs, FooterOf(config, p.trace))
  }

  function PrintedForest(config: Config, f: seq<Tree>): seq<Printed> {
    if f == [] then []
    else [PrintedCall(config, f[0].payload, PrintedForest(config, f[0].subs))] + PrintedForest(config, f[1..])
  }

  function ParseLogs(lines: seq<Line>, level: Level): (r: (seq<ShownLog>, seq<Line>))
    ensures |r.1| <= |lines|
  {
    if lines != [] && lines[0].LogLine? && lines[0].level == level then
      var (logs, rest) := ParseLogs(lines[1..], level);
      ([lines[0].log] + logs, rest)
    else ([], lines)
  }

  function ParseL2L1Logs(lines: seq<Line>, level: Level): (r: (seq<ShownL2L1Log>, seq<Line>))
    ensures |r.1| <= |lines|
  {
    if lines != [] && lines[0].L2L1Line? && lines[0].level == level then
      var (logs, rest) := ParseL2L1Logs(lines[1..], level);
      ([lines[0].l2L1Log] + logs, rest)
    else ([], lines)
  }

  /**
    Recursive descent over the lines: as many complete calls at `level` as there are, and the lines left
    over. A call's header must stand at `level`, all its other lines one level deeper.
   */
  function ParseForest(lines: seq<Line>, level: Level): (r: (seq<Printed>, seq<Line>))
    ensures |r.1| <= |lines|
    decreases |lines|
  {
    if lines == [] || !lines[0].HeaderLine? || lines[0].level != level then ([], lines) else
    var (logs, afterLogs) := ParseLogs(lines[1..], Deeper(level));
    var (l2L1Logs, afterL2L1) := ParseL2L1Logs(afterLogs, Deeper(level));
    var (subs, afterSubs) := ParseForest(afterL2L1, Deeper(level));
    if afterSubs == [] || !afterSubs[0].FooterLine? || afterSubs[0].level != Deeper(level) then ([], lines) else
    var (siblings, rest) := ParseForest(afterSubs[1..], level);
    ([Printed(lines[0].header, logs, l2L1Logs, subs, afterSubs[0].footer)] + siblings, rest)
  }

  lemma {:induction false} ParseLogLines(logs: seq<CallLog>, level: Level, rest: seq<Line>)
    requires rest != [] ==> !rest[0].LogLine?
    ensures ParseLogs(LogLines(logs, level) + rest, level) == (ShowLogs(logs), rest)
  {
    var lines := LogLines(logs, level) + rest;
    if logs == [] {
      assert lines == rest;
    } else {
      ParseLogLines(logs[1..], level, rest);
      assert lines[1..] == LogLines(logs[1..], level) + rest;
      assert [ShowLog(logs[0])] + ShowLogs(logs[1..]) == ShowLogs(logs);
    }
  }

  lemma {:induction false} ParseL2L1Lines(logs: seq<L2L1Logs>, level: Level, rest: seq<Line>)
    requires rest != [] ==> !rest[0].L2L1Line?
    ensures ParseL2L1Logs(L2L1Lines(logs, level) + rest, level) == (ShowL2L1Logs(logs), rest)
  {
    var lines := L2L1Lines(logs, level) + rest;
    if logs == [] {
      assert lines == rest;
    } else {
      ParseL2L1Lines(logs[1..], level, rest);
      assert lines[1..] == L2L1Lines(logs[1..], level) + rest;
      assert [ShowL2L1Log(logs[0])] + ShowL2L1Logs(logs[1..]) == ShowL2L1Logs(logs);
    }
  }

  /** The lines of the first call up to its footer, followed by `rest`. */
  function CallLines(config: Config, t: Tree, level: Level, rest: seq<Line>): seq<Line> {
    var p, inner := t.payload, Deeper(level);
    [HeaderLine(level, HeaderOf(config, p.trace))]
    + (LogLines(p.logs, inner)
       + (L2L1Lines(p.l2L1Logs, inner)
          + (Printout(config, t.subs, inner) + ([FooterLine(inner, FooterOf(config, p.trace))] + rest))))
  }

  lemma {:induction false} PrintoutUnfolds(config: Config, f: seq<Tree>, level: Level, rest: seq<Line>)
    requires f != []
    ensures Printout(config, f, level) + rest == CallLines(config, f[0], level, Printout(config, f[1..], level) + rest)
  {
    var p, inner := f[0].payload, Deeper(level);
    var a, e := [HeaderLine(level, HeaderOf(config, p.trace))], [FooterLine(inner, FooterOf(config, p.trace))];
    var b, c := LogLines(p.logs, inner), L2L1Lines(p.l2L1Logs, inner);
    var d, g := Printout(config, f[0].subs, inner), Printout(config, f[1..], level);
    Reassociate(a, b, c, d, e, g, rest);
  }

  lemma {:induction false} Reassociate(
    a: seq<Line>, b: seq<Line>, c: seq<Line>, d: seq<Line>, e: seq<Line>, g: seq<Line>, rest: seq<Line>)
    ensures a + b + c + d + e + g + rest == a + (b + (c + (d + (e + (g + rest)))))
  {
    assert a + b + c + d + e + g + rest == a + b + c + d + e + (g + rest);
    assert a + b + c + d + e + (g + rest) == a + b + c + d + (e + (g + rest));
    assert a + b + c + d + (e + (g + rest)) == a + b + c + (d + (e + (g + rest)));
    assert a + b + c + (d + (e + (g + rest))) == a + b + (c + (d + (e + (g + rest))));
  }

  /** The printout parses back to the forest, call by call, with every log, at the right levels. */
  lemma {:induction false} PrintoutParses(config: Config, f: seq<Tree>, level: Level, rest: seq<Line>)
    requires rest != [] ==> rest[0].FooterLine?
    ensures ParseForest(Printout(config, f, level) + rest, level) == (PrintedForest(config, f), rest)
    decreases f
  {
    if f == [] {
      assert Printout(config, f, level) + rest == rest;
    } else {
      var inner := Deeper(level);
      var siblings := Printout(config, f[1..], level) + rest;
      var tail := [FooterLine(inner, FooterOf(config, f[0].payload.trace))] + siblings;
      PrintoutUnfolds(config, f, level, rest);
      PrintoutParses(config, f[0].subs, inner, tail);
      PrintoutParses(config, f[1..], level, rest);
      ParseOne(config, f[0], level, siblings);
    }
  }

  /** One call parses once its subcalls do. */
  lemma {:induction false} ParseOne(config: Config, t: Tree, level: Level, rest: seq<Line>)
    requires var inner := Deeper(level);
             var tail := [FooterLine(inner, FooterOf(config, t.payload.trace))] + rest;
             ParseForest(Printout(config, t.subs, inner) + tail, inner) == (PrintedForest(config, t.subs), tail)
    ensures var (siblings, left) := ParseForest(rest, level);
            ParseForest(CallLines(config, t, level, rest), level)
            == ([PrintedCall(config, t.payload, PrintedForest(config, t.subs))] + siblings, left)
  {
    var p, inner := t.payload, Deeper(level);
    var tail := [FooterLine(inner, FooterOf(config, p.trace))] + rest;
    var afterL2L1 := Printout(config, t.subs, inner) + tail;
    var afterLogs := L2L1Lines(p.l2L1Logs, inner) + afterL2L1;
    HeaderOrFooterFirst(config, t.subs, inner, tail);
    ParseL2L1Lines(p.l2L1Logs, inner, afterL2L1);
    ParseLogLines(p.logs, inner, afterLogs);
    assert tail[1..] == rest;
    assert CallLines(config, t, level, rest)[1..] == LogLines(p.logs, inner) + afterLogs;
  }

  lemma {:induction false} HeaderOrFooterFirst(config: Config, f: seq<Tree>, level: Level, rest: seq<Line>)
    requires rest != [] && rest[0].FooterLine?
    ensures var lines := Printout(config, f, level) + rest;
            lines != [] && (lines[0].HeaderLine? || lines[0].FooterLine?)
  {
  }

  // ---------- Every slot is written exactly once, in slot order ----------

  function Headers(lines: seq<Line>): seq<Header> {
    if lines == [] then []
    else (if lines[0].HeaderLine? then [lines[0].header] else []) + Headers(lines[1..])
  }

  function Logs(lines: seq<Line>): seq<ShownLog> {
    if lines == [] then [] else (if lines[0].LogLine? then [lines[0].log] else []) + Logs(lines[1..])
  }

  function L2L1LogsOf(lines: seq<Line>): seq<ShownL2L1Log> {
    if lines == [] then [] else (if lines[0].L2L1Line? then [lines[0].l2L1Log] else []) + L2L1LogsOf(lines[1..])
  }

  function SlotHeaders(config: Config, nodes: seq<CallTraceNode>): seq<Header> {
    if nodes == [] then [] else [HeaderOf(config, nodes[0].trace)] + SlotHeaders(config, nodes[1..])
  }

  function SlotLogs(nodes: seq<CallTraceNode>): seq<ShownLog> {
    if nodes == [] then [] else ShowLogs(nodes[0].logs) + SlotLogs(nodes[1..])
  }

  function SlotL2L1Logs(nodes: seq<CallTraceNode>): seq<ShownL2L1Log> {
    if nodes == [] then [] else ShowL2L1Logs(nodes[0].l2L1Logs) + SlotL2L1Logs(nodes[1..])
  }

  lemma {:induction false} LinesAppend(a: seq<Line>, b: seq<Line>)
    ensures Headers(a + b) == Headers(a) + Headers(b)
    ensures Logs(a + b) == Logs(a) + Logs(b)
    ensures L2L1LogsOf(a + b) == L2L1LogsOf(a) + L2L1LogsOf(b)
  {
    HeadersAppend(a, b);
    LogsAppend(a, b);
    L2L1LogsAppend(a, b);
  }

  lemma {:induction false} HeadersAppend(a: seq<Line>, b: seq<Line>)
    ensures Headers(a + b) == Headers(a) + Headers(b)
  {
    if a == [] {
      assert a + b == b;
    } else {
      var all, rest := a + b, a[1..];
      assert all[1..] == rest + b && all[0] == a[0];
      HeadersAppend(rest, b);
    }
  }

  lemma {:induction false} LogsAppend(a: seq<Line>, b: seq<Line>)
    ensures Logs(a + b) == Logs(a) + Logs(b)
  {
    if a == [] {
      assert a + b == b;
    } else {
      var all, rest := a + b, a[1..];
      assert all[1..] == rest + b && all[0] == a[0];
      LogsAppend(rest, b);
    }
  }

  lemma {:induction false} L2L1LogsAppend(a: seq<Line>, b: seq<Line>)
    ensures L2L1LogsOf(a + b) == L2L1LogsOf(a) + L2L1LogsOf(b)
  {
    if a == [] {
      assert a + b == b;
    } else {
      var all, rest := a + b, a[1..];
      assert all[1..] == rest + b && all[0] == a[0];
      L2L1LogsAppend(rest, b);
    }
  }

  lemma {:induction false} SlotsAppend(config: Config, a: seq<CallTraceNode>, b: seq<CallTraceNode>)
    ensures SlotHeaders(config, a + b) == SlotHeaders(config, a) + SlotHeaders(config, b)
    ensures SlotLogs(a + b) == SlotLogs(a) + SlotLogs(b)
    ensures SlotL2L1Logs(a + b) == SlotL2L1Logs(a) + SlotL2L1Logs(b)
  {
    if a == [] {
      assert a + b == b;
    } else {
      var all, rest := a + b, a[1..];
      assert all[1..] == rest + b && all[0] == a[0];
      SlotsAppend(config, rest, b);
      var logs, l2L1Logs := ShowLogs(a[0].logs), ShowL2L1Logs(a[0].l2L1Logs);
      assert logs + (SlotLogs(rest) + SlotLogs(b)) == logs + SlotLogs(rest) + SlotLogs(b);
      assert l2L1Logs + (SlotL2L1Logs(rest) + SlotL2L1Logs(b)) == l2L1Logs + SlotL2L1Logs(rest) + SlotL2L1Logs(b);
    }
  }

  lemma {:induction false} LogLinesCount(logs: seq<CallLog>, level: Level)
    ensures var lines := LogLines(logs, level);
            Headers(lines) == [] && Logs(lines) == ShowLogs(logs) && L2L1LogsOf(lines) == []
  {
    if logs != [] {
      LogLinesCount(logs[1..], level);
      assert LogLines(logs, level)[1..] == LogLines(logs[1..], level);
      assert [ShowLog(logs[0])] + ShowLogs(logs[1..]) == ShowLogs(logs);
    }
  }

  lemma {:induction false} L2L1LinesCount(logs: seq<L2L1Logs>, level: Level)
    ensures var lines := L2L1Lines(logs, level);
            Headers(lines) == [] && Logs(lines) == [] && L2L1LogsOf(lines) == ShowL2L1Logs(logs)
  {
    if logs != [] {
      L2L1LinesCount(logs[1..], level);
      assert L2L1Lines(logs, level)[1..] == L2L1Lines(logs[1..], level);
      assert [ShowL2L1Log(logs[0])] + ShowL2L1Logs(logs[1..]) == ShowL2L1Logs(logs);
    }
  }

  lemma {:induction false} CallLinesFollow(config: Config, t: Tree, level: Level, rest: seq<Line>)
    ensures var lines, subs := CallLines(config, t, level, rest), Printout(config, t.subs, Deeper(level));
            && Headers(lines) == [HeaderOf(config, t.payload.trace)] + Headers(subs) + Headers(rest)
            && Logs(lines) == ShowLogs(t.payload.logs) + Logs(subs) + Logs(rest)
            && L2L1LogsOf(lines) == ShowL2L1Logs(t.payload.l2L1Logs) + L2L1LogsOf(subs) + L2L1LogsOf(rest)
  {
    var p, inner := t.payload, Deeper(level);
    var subs := Printout(config, t.subs, inner);
    var tail := [FooterLine(inner, FooterOf(config, p.trace))] + rest;
    assert tail[1..] == rest;
    LinesAppend(subs, tail);
    LogsThen(p, inner, subs + tail);
    var body := LogLines(p.logs, inner) + (L2L1Lines(p.l2L1Logs, inner) + (subs + tail));
    assert CallLines(config, t, level, rest) == [HeaderLine(level, HeaderOf(config, p.trace))] + body;
    HeaderThen(level, HeaderOf(config, p.trace), body);
  }

  lemma {:induction false} HeaderThen(level: Level, header: Header, rest: seq<Line>)
    ensures var lines := [HeaderLine(level, header)] + rest;
            && Headers(lines) == [header] + Headers(rest)
            && Logs(lines) == Logs(rest) && L2L1LogsOf(lines) == L2L1LogsOf(rest)
  {
    assert ([HeaderLine(level, header)] + rest)[1..] == rest;
  }

  lemma {:induction false} LogsThen(p: Payload, level: Level, rest: seq<Line>)
    ensures var lines := LogLines(p.logs, level) + (L2L1Lines(p.l2L1Logs, level) + rest);
            && Headers(lines) == Headers(rest)
            && Logs(lines) == ShowLogs(p.logs) + Logs(rest)
            && L2L1LogsOf(lines) == ShowL2L1Logs(p.l2L1Logs) + L2L1LogsOf(rest)
  {
    LogLinesCount(p.logs, level);
    L2L1LinesCount(p.l2L1Logs, level);
    LinesAppend(L2L1Lines(p.l2L1Logs, level), rest);
    LinesAppend(LogLines(p.logs, level), L2L1Lines(p.l2L1Logs, level) + rest);
  }

  /** The lines show exactly the given slots, from first to last. */
  ghost predicate Show(config: Config, lines: seq<Line>, slots: seq<CallTraceNode>) {
    Headers(lines) == SlotHeaders(config, slots) && Logs(lines) == SlotLogs(slots)
    && L2L1LogsOf(lines) == SlotL2L1Logs(slots)
  }

  /** Showing a call's node, then what its subcalls' lines show, then what the rest shows. */
  lemma {:induction false} CallLinesShow(
    config: Config, t: Tree, level: Level, rest: seq<Line>, node: CallTraceNode, below: seq<CallTraceNode>,
    others: seq<CallTraceNode>)
    requires PayloadAt(node) == t.payload
    requires Show(config, Printout(config, t.subs, Deeper(level)), below) && Show(config, rest, others)
    ensures Show(config, CallLines(config, t, level, rest), [node] + below + others)
  {
    CallLinesFollow(config, t, level, rest);
    SlotsAppend(config, [node] + below, others);
    assert ([node] + below)[1..] == below;
  }

  /** The three kinds of lines of a printout list the slots of the layout from first to last. */
  lemma {:induction false} PrintoutFollowsSlots(
    config: Config, f: seq<Tree>, level: Level, style: Style, parent: Option<nat>, base: nat)
    ensures Show(config, Printout(config, f, level), LayForest(style, f, parent, base))
    decreases f
  {
    if f != [] {
      var rest := Printout(config, f[1..], level);
      var below, others := LayForest(style, f[0].subs, Some(base), base + 1),
                           LayForest(style, f[1..], parent, base + Size(f[0]));
      PrintoutFollowsSlots(config, f[0].subs, Deeper(level), style, Some(base), base + 1);
      PrintoutFollowsSlots(config, f[1..], level, style, parent, base + Size(f[0]));
      CallLinesShow(config, f[0], level, rest, NodeAt(style, f[0], parent, base), below, others);
      PrintoutUnfolds(config, f, level, []);
      assert Printout(config, f, level) + [] == Printout(config, f, level) && rest + [] == rest;
    }
  }

  /**
    Writing a filtered arena emits one header per slot from slot 2 on, in slot order, and likewise
    every log and every L2-L1 log of those slots exactly once.
   */
  lemma {:induction false} FilteredWritesEverySlotOnce(config: Config, root: CallTraceNode, f: seq<Tree>, level: Level)
    ensures var nodes := TraceFilter.FilteredNodes(root, f);
            && Descends(nodes) && WellOrdered(nodes)
            && var lines := RenderNodes(config, nodes, nodes[0].children, level);
               && Headers(lines) == SlotHeaders(config, nodes[2..])
               && Logs(lines) == SlotLogs(nodes[2..])
               && L2L1LogsOf(lines) == SlotL2L1Logs(nodes[2..])
  {
    var nodes := TraceFilter.FilteredNodes(root, f);
    FilteredPrintout(config, root, f, level);
    PrintoutFollowsSlots(config, f, level, Rebuilt, Some(0), 2);
    assert nodes[2..] == LayForest(Rebuilt, f, Some(0), 2);
  }

  /** Writing a filtered arena produces lines that parse, completely, to the forest it holds. */
  lemma {:induction false} FilteredParsesBack(config: Config, root: CallTraceNode, f: seq<Tree>, level: Level)
    ensures var nodes := TraceFilter.FilteredNodes(root, f);
            && Descends(nodes) && WellOrdered(nodes)
            && ParseForest(RenderNodes(config, nodes, nodes[0].children, level), level)
               == (PrintedForest(config, f), [])
  {
    FilteredPrintout(config, root, f, level);
    PrintoutParses(config, f, level, []);
    assert Printout(config, f, level) + [] == Printout(config, f, level);
  }

  /**
    From recorded calls to printed lines: building, filtering at `v` and writing yields lines that
    parse back to the pruned calls.
   */
  lemma {:induction false} TraceRoundTrip(
    config: Config, known: KnownAddresses, calls: seq<Call>, tx: TxResult, v: TracePruning.Verbosity)
    ensures var built := TraceBuilder.BuiltNodes(known, calls, tx);
            && built != [] && Descends(built)
            && var filtered := TraceFilter.FilteredNodes(built[0], TracePruning.Prune(known, Forest(built), v));
               && Descends(filtered) && WellOrdered(filtered)
               && ParseForest(RenderNodes(config, filtered, filtered[0].children, 0), 0)
                  == (PrintedForest(config, TracePruning.Prune(known, TraceBuilder.ForestOf(known, tx, calls), v)), [])
  {
    TraceBuilder.BuildReadsBack(known, calls, tx);
    var built := TraceBuilder.BuiltNodes(known, calls, tx);
    FilteredParsesBack(config, built[0], TracePruning.Prune(known, Forest(built), v), 0);
  }
}
