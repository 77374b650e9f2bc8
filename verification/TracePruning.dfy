/** Pruning a forest by verbosity: the meaning of `filter_call_trace_arena` (crates/traces/src/lib.rs). */
module TracePruning {
  import opened AddressMap
  import opened CallTraces
  import opened TraceForest
  import opened Selections

  type Verbosity = v: int | 0 <= v < 256

  /** The least verbosity that shows calls to this contract: 2 for users, 3 for system, 4 for precompiles. */
  function RequiredVerbosity(known: KnownAddresses, address: Address): nat {
    if address !in known then 2
    else match known[address].contractType
         case System => 3
         case Precompile => 4
         case _ => 2
  }

  predicate ShouldIncludeCall(known: KnownAddresses, address: Address, verbosity: Verbosity): (included: bool)
    ensures included <==> verbosity >= RequiredVerbosity(known, address)
  {
    var system, precompile := IsSystem(known, address), IsPrecompile(known, address);
    match verbosity
    case 0 => false
    case 1 => false
    case 2 => !(system || precompile)
    case 3 => !precompile
    case 4 => true
    case _ => true
  }

  /** The thresholds, kind by kind: precompiles need 4, system contracts 3, everybody else 2. */
  lemma {:induction false} Thresholds(known: KnownAddresses, address: Address, verbosity: Verbosity)
    ensures address in known && known[address].contractType.Precompile? ==>
      (ShouldIncludeCall(known, address, verbosity) <==> verbosity >= 4)
    ensures address in known && known[address].contractType.System? ==>
      (ShouldIncludeCall(known, address, verbosity) <==> verbosity >= 3)
    ensures address in known && known[address].contractType in {Popular, Unknown} ==>
      (ShouldIncludeCall(known, address, verbosity) <==> verbosity >= 2)
    ensures address !in known ==> (ShouldIncludeCall(known, address, verbosity) <==> verbosity >= 2)
  {
    if address in known {
      match known[address].contractType
      case System =>
      case Precompile =>
      case Popular =>
      case Unknown =>
    }
  }

  predicate KeepsLog(log: L2L1Logs, verbosity: Verbosity) {
    match log.rawLog
    case User(_) => verbosity >= 2
    case System(_) => verbosity >= 3
  }

  /** `Vec::retain` on the L2-L1 logs of a node: nothing below 2, user logs only at 2, everything from 3 on. */
  function RetainLogs(logs: seq<L2L1Logs>, verbosity: Verbosity): (kept: seq<L2L1Logs>)
    ensures verbosity < 2 ==> kept == []
    ensures verbosity == 2 ==> forall x :: x in kept <==> x in logs && x.rawLog.User?
    ensures verbosity >= 3 ==> kept == logs
  {
    if logs == [] then []
    else (if KeepsLog(logs[0], verbosity) then [logs[0]] else []) + RetainLogs(logs[1..], verbosity)
  }

  function Keeper(verbosity: Verbosity): L2L1Logs -> bool {
    (log: L2L1Logs) => KeepsLog(log, verbosity)
  }

  /** Exactly the logs the verbosity shows are retained, each as often as it occurs and in the old order. */
  lemma {:induction false} RetainSelects(logs: seq<L2L1Logs>, verbosity: Verbosity)
    ensures IsSelection(logs, Keeper(verbosity), RetainLogs(logs, verbosity))
  {
    if logs == [] {
      SelectFromNothing(Keeper(verbosity));
    } else {
      RetainSelects(logs[1..], verbosity);
      SelectFirst(logs, Keeper(verbosity), RetainLogs(logs[1..], verbosity));
    }
  }

  function Retain(payload: Payload, verbosity: Verbosity): Payload {
    payload.(l2L1Logs := RetainLogs(payload.l2L1Logs, verbosity))
  }

  predicate Shown(known: KnownAddresses, payload: Payload, verbosity: Verbosity) {
    ShouldIncludeCall(known, payload.trace.address, verbosity)
  }

  /** Each hidden call is replaced, in place, by its pruned subcalls. */
  function Prune(known: KnownAddresses, f: seq<Tree>, verbosity: Verbosity): seq<Tree> {
    if f == [] then [] else
    var subs := Prune(known, f[0].subs, verbosity);
    (if Shown(known, f[0].payload, verbosity) then [Tree(Retain(f[0].payload, verbosity), subs)] else subs)
    + Prune(known, f[1..], verbosity)
  }

  lemma {:induction false} PruneAppend(known: KnownAddresses, f: seq<Tree>, g: seq<Tree>, verbosity: Verbosity)
    ensures Prune(known, f + g, verbosity) == Prune(known, f, verbosity) + Prune(known, g, verbosity)
  {
    if f == [] {
      assert f + g == g;
    } else {
      assert (f + g)[1..] == f[1..] + g;
      PruneAppend(known, f[1..], g, verbosity);
    }
  }

  lemma {:induction false} PruneOne(known: KnownAddresses, t: Tree, verbosity: Verbosity)
    ensures Prune(known, [t], verbosity)
         == if Shown(known, t.payload, verbosity)
            then [Tree(Retain(t.payload, verbosity), Prune(known, t.subs, verbosity))]
            else Prune(known, t.subs, verbosity)
  {
    assert [t][1..] == [];
  }

  // ---------- Filtering composes ----------

  function Min(v: Verbosity, w: Verbosity): Verbosity { if v <= w then v else w }

  lemma {:induction false} RetainLogsTwice(logs: seq<L2L1Logs>, v: Verbosity, w: Verbosity)
    ensures RetainLogs(RetainLogs(logs, v), w) == RetainLogs(logs, Min(v, w))
  {
    if logs != [] {
      RetainLogsTwice(logs[1..], v, w);
      var rest := RetainLogs(logs[1..], v);
      if KeepsLog(logs[0], v) {
        assert ([logs[0]] + rest)[1..] == rest;
      } else {
        assert [] + rest == rest;
      }
    }
  }

  /** Pruning at `v` and then at `w` is pruning once at the smaller of the two. */
  lemma {:induction false} PruneTwice(known: KnownAddresses, f: seq<Tree>, v: Verbosity, w: Verbosity)
    ensures Prune(known, Prune(known, f, v), w) == Prune(known, f, Min(v, w))
    decreases f
  {
    if f != [] {
      var t := f[0];
      var subs := Prune(known, t.subs, v);
      PruneTwice(known, t.subs, v, w);
      PruneTwice(known, f[1..], v, w);
      RetainLogsTwice(t.payload.l2L1Logs, v, w);
      var head := if Shown(known, t.payload, v) then [Tree(Retain(t.payload, v), subs)] else subs;
      PruneAppend(known, head, Prune(known, f[1..], v), w);
      if Shown(known, t.payload, v) {
        PruneOne(known, Tree(Retain(t.payload, v), subs), w);
      }
    }
  }

  // ---------- What pruning keeps: order and ancestry ----------

  /** A call together with the chain of calls above it, outermost first. */
  datatype Entry = Entry(payload: Payload, ancestors: seq<Payload>)

  /** All calls of a forest in preorder, each with its ancestors. */
  function Entries(f: seq<Tree>, ancestors: seq<Payload>): seq<Entry> {
    if f == [] then []
    else [Entry(f[0].payload, ancestors)]
         + Entries(f[0].subs, ancestors + [f[0].payload])
         + Entries(f[1..], ancestors)
  }

  function ShownOnly(known: KnownAddresses, payloads: seq<Payload>, v: Verbosity): seq<Payload> {
    if payloads == [] then []
    else ShownOnly(known, payloads[..|payloads| - 1], v)
         + (if Shown(known, payloads[|payloads| - 1], v) then [Retain(payloads[|payloads| - 1], v)] else [])
  }

  /** The entries of shown calls, in order, with the hidden calls struck from their ancestor chains. */
  function ShownEntries(known: KnownAddresses, entries: seq<Entry>, v: Verbosity): seq<Entry> {
    if entries == [] then []
    else (if Shown(known, entries[0].payload, v)
          then [Entry(Retain(entries[0].payload, v), ShownOnly(known, entries[0].ancestors, v))] else [])
         + ShownEntries(known, entries[1..], v)
  }

  lemma {:induction false} ShownEntriesAppend(known: KnownAddresses, a: seq<Entry>, b: seq<Entry>, v: Verbosity)
    ensures ShownEntries(known, a + b, v) == ShownEntries(known, a, v) + ShownEntries(known, b, v)
  {
    if a == [] {
      assert a + b == b;
    } else {
      assert (a + b)[1..] == a[1..] + b;
      ShownEntriesAppend(known, a[1..], b, v);
    }
  }

  lemma {:induction false} EntriesAppend(f: seq<Tree>, g: seq<Tree>, ancestors: seq<Payload>)
    ensures Entries(f + g, ancestors) == Entries(f, ancestors) + Entries(g, ancestors)
  {
    if f == [] {
      assert f + g == g;
    } else {
      assert (f + g)[1..] == f[1..] + g;
      EntriesAppend(f[1..], g, ancestors);
    }
  }

  lemma {:induction false} ShownOnlyPush(known: KnownAddresses, payloads: seq<Payload>, last: Payload, v: Verbosity)
    ensures ShownOnly(known, payloads + [last], v)
         == ShownOnly(known, payloads, v) + if Shown(known, last, v) then [Retain(last, v)] else []
  {
    assert (payloads + [last])[..|payloads|] == payloads;
  }

  /**
    The calls of a pruned forest are exactly the shown calls, in their old preorder, and the
    ancestors of each are exactly its old shown ancestors.
   */
  lemma {:induction false} PruneKeepsOrderAndAncestry(
    known: KnownAddresses, f: seq<Tree>, ancestors: seq<Payload>, v: Verbosity)
    ensures Entries(Prune(known, f, v), ShownOnly(known, ancestors, v)) == ShownEntries(known, Entries(f, ancestors), v)
    decreases f
  {
    if f != [] {
      var t := f[0];
      var kept := ShownOnly(known, ancestors, v);
      var below := ancestors + [t.payload];
      PruneKeepsOrderAndAncestry(known, t.subs, below, v);
      PruneKeepsOrderAndAncestry(known, f[1..], ancestors, v);
      ShownOnlyPush(known, ancestors, t.payload, v);
      var head, middle, tail := [Entry(t.payload, ancestors)], Entries(t.subs, below), Entries(f[1..], ancestors);
      ShownEntriesAppend(known, head + middle, tail, v);
      ShownEntriesAppend(known, head, middle, v);
      assert head[1..] == [];
      var subs := Prune(known, t.subs, v);
      if Shown(known, t.payload, v) {
        var whole := [Tree(Retain(t.payload, v), subs)];
        assert whole[1..] == [];
        EntriesAppend(whole, Prune(known, f[1..], v), kept);
      } else {
        assert kept + [] == kept;
        EntriesAppend(subs, Prune(known, f[1..], v), kept);
      }
    }
  }
}
