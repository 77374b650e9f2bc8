/** The indentation of every line, counted from the lines before it (crates/traces/src/writer.rs). */
module TraceLevels {
  import opened CallTraces
  import opened TraceForest
  import opened TraceWriter

  function HeaderCount(lines: seq<Line>): nat {
    if lines == [] then 0
    else HeaderCount(lines[..|lines| - 1]) + if lines[|lines| - 1].HeaderLine? then 1 else 0
  }

  function FooterCount(lines: seq<Line>): nat {
    if lines == [] then 0
    else FooterCount(lines[..|lines| - 1]) + if lines[|lines| - 1].FooterLine? then 1 else 0
  }

  /** Calls that have been opened and not yet closed. */
  function Open(lines: seq<Line>): int { HeaderCount(lines) - FooterCount(lines) }

  /** Line `j` is indented by one step for each call open before it, modulo the width of the level. */
  ghost predicate Stands(lines: seq<Line>, level: int, j: int)
    requires 0 <= j < |lines|
  {
    lines[j].level == (level + HeaderCount(lines[..j]) - FooterCount(lines[..j])) % 0x1_0000
  }

  ghost predicate Indented(lines: seq<Line>, level: int) {
    forall j :: 0 <= j < |lines| ==> Stands(lines, level, j)
  }

  /** All lines are indented, and every call opened among them is closed. */
  ghost predicate Complete(lines: seq<Line>, level: int) {
    Indented(lines, level) && HeaderCount(lines) == FooterCount(lines)
  }

  lemma {:induction false} OpenAppend(a: seq<Line>, b: seq<Line>)
    ensures HeaderCount(a + b) == HeaderCount(a) + HeaderCount(b)
    ensures FooterCount(a + b) == FooterCount(a) + FooterCount(b)
  {
    if b == [] {
      assert a + b == a;
    } else {
      var n := |b| - 1;
      assert (a + b)[..|a + b| - 1] == a + b[..n];
      OpenAppend(a, b[..n]);
    }
  }

  lemma {:induction false} StandsInFront(a: seq<Line>, b: seq<Line>, level: int, j: int)
    requires 0 <= j < |a| && Stands(a, level, j)
    ensures Stands(a + b, level, j)
  {
    assert (a + b)[..j] == a[..j] && (a + b)[j] == a[j];
  }

  lemma {:induction false} StandsBehind(a: seq<Line>, b: seq<Line>, level: int, j: int)
    requires 0 <= j < |b| && Stands(b, level + Open(a), j)
    ensures Stands(a + b, level, |a| + j)
  {
    var all := a + b;
    assert all[..|a| + j] == a + b[..j] && all[|a| + j] == b[j];
    OpenAppend(a, b[..j]);
  }

  lemma {:induction false} IndentedAppend(a: seq<Line>, b: seq<Line>, level: int)
    requires Indented(a, level) && Indented(b, level + Open(a))
    ensures Indented(a + b, level)
  {
    forall j | 0 <= j < |a + b|
      ensures Stands(a + b, level, j)
    {
      if j < |a| {
        StandsInFront(a, b, level, j);
      } else {
        StandsBehind(a, b, level, j - |a|);
      }
    }
  }

  lemma {:induction false} CompleteAppend(a: seq<Line>, b: seq<Line>, level: int)
    requires Complete(a, level) && Complete(b, level)
    ensures Complete(a + b, level)
  {
    OpenAppend(a, b);
    IndentedAppend(a, b, level);
  }

  /** Levels count modulo 2^16, so a wrapped starting level makes no difference. */
  lemma {:induction false} IndentedWraps(lines: seq<Line>, level: int)
    requires Indented(lines, level % 0x1_0000)
    ensures Indented(lines, level)
  {
    forall j | 0 <= j < |lines|
      ensures Stands(lines, level, j)
    {
      assert Stands(lines, level % 0x1_0000, j);
      Wrap(level, HeaderCount(lines[..j]) - FooterCount(lines[..j]));
    }
  }

  lemma {:induction false} Wrap(a: int, b: int)
    ensures (a % 0x1_0000 + b) % 0x1_0000 == (a + b) % 0x1_0000
  {
  }

  lemma {:induction false} OneLine(line: Line, level: int)
    requires line.level == level % 0x1_0000
    ensures Indented([line], level)
    ensures HeaderCount([line]) == if line.HeaderLine? then 1 else 0
    ensures FooterCount([line]) == if line.FooterLine? then 1 else 0
  {
    assert [line][..0] == [];
  }

  // ---------- Everything the writer emits ----------

  lemma {:induction false} NodeIndented(config: Config, nodes: seq<CallTraceNode>, idx: nat, level: Level)
    requires Descends(nodes) && WellOrdered(nodes) && idx < |nodes|
    ensures Complete(RenderNode(config, nodes, idx, level), level)
    decreases |nodes| - idx, |nodes[idx].ordering| + 1
  {
    var inner := (level + 1) % 0x1_0000;
    var header := HeaderLine(level, HeaderOf(config, nodes[idx].trace));
    var footer := FooterLine(inner, FooterOf(config, nodes[idx].trace));
    var items := RenderItems(config, nodes, idx, |nodes[idx].ordering|, inner);
    ItemsIndented(config, nodes, idx, |nodes[idx].ordering|, inner);
    Bracketed(header, items, footer, level);
    assert RenderNode(config, nodes, idx, level) == [header] + items + [footer];
  }

  /** A header, lines one level deeper and a footer at that deeper level. */
  lemma {:induction false} Bracketed(header: Line, items: seq<Line>, footer: Line, level: Level)
    requires header.HeaderLine? && header.level == level
    requires footer.FooterLine? && footer.level == (level + 1) % 0x1_0000
    requires Complete(items, (level + 1) % 0x1_0000)
    ensures Complete([header] + items + [footer], level)
  {
    OneLine(header, level);
    IndentedWraps(items, level + 1);
    OpenAppend([header], items);
    IndentedAppend([header], items, level);
    OneLine(footer, level + 1);
    OpenAppend([header] + items, [footer]);
    IndentedAppend([header] + items, [footer], level);
  }

  lemma {:induction false} ItemsIndented(config: Config, nodes: seq<CallTraceNode>, idx: nat, n: nat, level: Level)
    requires Descends(nodes) && WellOrdered(nodes) && idx < |nodes| && n <= |nodes[idx].ordering|
    ensures Complete(RenderItems(config, nodes, idx, n, level), level)
    decreases |nodes| - idx, n
  {
    if n > 0 {
      ItemsIndented(config, nodes, idx, n - 1, level);
      if nodes[idx].ordering[n - 1].Call? {
        NodeIndented(config, nodes, nodes[idx].children[nodes[idx].ordering[n - 1].index], level);
      } else {
        LogIsIndented(config, nodes, idx, n - 1, level);
      }
      var before, item := RenderItems(config, nodes, idx, n - 1, level), RenderItem(config, nodes, idx, n - 1, level);
      CompleteAppend(before, item, level);
    }
  }

  lemma {:induction false} LogIsIndented(config: Config, nodes: seq<CallTraceNode>, idx: nat, item: nat, level: Level)
    requires Descends(nodes) && WellOrdered(nodes) && idx < |nodes| && item < |nodes[idx].ordering|
    requires !nodes[idx].ordering[item].Call?
    ensures Complete(RenderItem(config, nodes, idx, item, level), level)
  {
    var lines := RenderItem(config, nodes, idx, item, level);
    OneLine(lines[0], level);
    assert lines == [lines[0]];
  }

  lemma {:induction false} NodesIndented(config: Config, nodes: seq<CallTraceNode>, slots: seq<nat>, level: Level)
    requires Descends(nodes) && WellOrdered(nodes) && forall k :: 0 <= k < |slots| ==> slots[k] < |nodes|
    ensures Complete(RenderNodes(config, nodes, slots, level), level)
  {
    if slots != [] {
      var n := |slots| - 1;
      NodesIndented(config, nodes, slots[..n], level);
      NodeIndented(config, nodes, slots[n], level);
      CompleteAppend(RenderNodes(config, nodes, slots[..n], level), RenderNode(config, nodes, slots[n], level), level);
    }
  }

  /**
    In everything written for an arena, filtered or not, each line stands exactly as many levels below the
    starting one as there are calls open at that point, and in the end all calls are closed.
   */
  lemma {:induction false} LinesAreIndented(config: Config, nodes: seq<CallTraceNode>, level: Level)
    requires nodes != [] && Descends(nodes) && WellOrdered(nodes)
    ensures var lines := RenderNodes(config, nodes, nodes[0].children, level);
            && (forall j :: 0 <= j < |lines| ==>
                  lines[j].level == (level + HeaderCount(lines[..j]) - FooterCount(lines[..j])) % 0x1_0000)
            && HeaderCount(lines) == FooterCount(lines)
  {
    NodesIndented(config, nodes, nodes[0].children, level);
    var lines := RenderNodes(config, nodes, nodes[0].children, level);
    forall j | 0 <= j < |lines|
      ensures lines[j].level == (level + HeaderCount(lines[..j]) - FooterCount(lines[..j])) % 0x1_0000
    {
      assert Stands(lines, level, j);
    }
  }
}
