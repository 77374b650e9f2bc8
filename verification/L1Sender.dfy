/** The actor that commits, proves and executes batches on L1 (crates/l1_sidecar/src/l1_sender.rs). */
module L1Sender {
  import opened CommitmentGenerator
  import opened Selections

  datatype Command = Commit(batch: L1Batch) | Prove(batch: L1Batch) | Execute(batch: L1Batch)

  /** A call made to L1 with its arguments, and whether it succeeded. */
  datatype L1Call =
    | CommitCall(previous: L1Batch, batch: L1Batch, ok: bool)
    | ProveCall(previous: L1Batch, batch: L1Batch, ok: bool)
    | ExecuteCall(batch: L1Batch, tree: seq<nat>, ok: bool)

  /** The sender's memory; `tree` lists the leaves pushed into the Merkle tree of priority transactions. */
  datatype SenderState = SenderState(lastCommitted: L1Batch, lastProved: L1Batch, tree: seq<nat>)

  /** The call a command makes to L1. */
  function CallFor(s: SenderState, command: Command, ok: bool): L1Call {
    match command
    case Commit(batch) => CommitCall(s.lastCommitted, batch, ok)
    case Prove(batch) => ProveCall(s.lastProved, batch, ok)
    case Execute(batch) => ExecuteCall(batch, s.tree + batch.header.priorityOps, ok)
  }

  function Processed(s: SenderState, command: Command, ok: bool): SenderState {
    match command
    case Commit(batch) => if ok then s.(lastCommitted := batch) else s
    case Prove(batch) => if ok then s.(lastProved := batch) else s
    case Execute(batch) => s.(tree := s.tree + batch.header.priorityOps)
  }

  /** A command together with how L1 will treat it. */
  datatype Request = Request(command: Command, ok: bool)

  function ProcessAll(s: SenderState, requests: seq<Request>): SenderState {
    if requests == [] then s
    else var n := |requests| - 1;
         Processed(ProcessAll(s, requests[..n]), requests[n].command, requests[n].ok)
  }

  function CallsOf(s: SenderState, requests: seq<Request>): (calls: seq<L1Call>)
    ensures |calls| == |requests|
  {
    if requests == [] then []
    else var n := |requests| - 1;
         CallsOf(s, requests[..n]) + [CallFor(ProcessAll(s, requests[..n]), requests[n].command, requests[n].ok)]
  }

  class L1Sender {
    var lastCommittedL1Batch: L1Batch
    var lastProvedL1Batch: L1Batch
    var l1TxMerkleTree: seq<nat>
    /** All calls made to L1 so far. */
    ghost var calls: seq<L1Call>

    function State(): SenderState
      reads this
    {
      SenderState(lastCommittedL1Batch, lastProvedL1Batch, l1TxMerkleTree)
    }

    constructor (genesis: L1Batch)
      ensures State() == SenderState(genesis, genesis, []) && calls == []
    {
      lastCommittedL1Batch, lastProvedL1Batch, l1TxMerkleTree, calls := genesis, genesis, [], [];
    }

    method HandleCommit(batch: L1Batch, ok: bool)
      modifies this
      ensures State() == Processed(old(State()), Commit(batch), ok)
      ensures calls == old(calls) + [CallFor(old(State()), Commit(batch), ok)]
    {
      calls := calls + [CommitCall(lastCommittedL1Batch, batch, ok)];
      if ok {
        lastCommittedL1Batch := batch;
      }
    }

    method HandleProve(batch: L1Batch, ok: bool)
      modifies this
      ensures State() == Processed(old(State()), Prove(batch), ok)
      ensures calls == old(calls) + [CallFor(old(State()), Prove(batch), ok)]
    {
      calls := calls + [ProveCall(lastProvedL1Batch, batch, ok)];
      if ok {
        lastProvedL1Batch := batch;
      }
    }

    /** Pushes the batch's priority operations into the tree before anything can fail. */
    method HandleExecute(batch: L1Batch, ok: bool)
      modifies this
      ensures State() == Processed(old(State()), Execute(batch), ok)
      ensures calls == old(calls) + [CallFor(old(State()), Execute(batch), ok)]
    {
      var ops := batch.header.priorityOps;
      for i := 0 to |ops|
        invariant l1TxMerkleTree == old(l1TxMerkleTree) + ops[..i]
        invariant lastCommittedL1Batch == old(lastCommittedL1Batch) && lastProvedL1Batch == old(lastProvedL1Batch)
        invariant calls == old(calls)
      {
        l1TxMerkleTree := l1TxMerkleTree + [ops[i]];
      }
      assert ops[..|ops|] == ops;
      calls := calls + [ExecuteCall(batch, l1TxMerkleTree, ok)];
    }

    /** Processes requests one after the other until the channel is closed. */
    method Run(requests: seq<Request>)
      modifies this
      ensures State() == ProcessAll(old(State()), requests)
      ensures calls == old(calls) + CallsOf(old(State()), requests)
    {
      for i := 0 to |requests|
        invariant State() == ProcessAll(old(State()), requests[..i])
        invariant calls == old(calls) + CallsOf(old(State()), requests[..i])
      {
        assert requests[..i + 1][..i] == requests[..i];
        match requests[i].command
        case Commit(batch) => HandleCommit(batch, requests[i].ok);
        case Prove(batch) => HandleProve(batch, requests[i].ok);
        case Execute(batch) => HandleExecute(batch, requests[i].ok);
      }
      assert requests[..|requests|] == requests;
    }
  }

  // ---------- Chains ----------

  /** The successful commits among `calls`, in order. */
  function Commits(calls: seq<L1Call>): seq<L1Call> {
    if calls == [] then []
    else var n := |calls| - 1;
         Commits(calls[..n]) + if calls[n].CommitCall? && calls[n].ok then [calls[n]] else []
  }

  function Proofs(calls: seq<L1Call>): seq<L1Call> {
    if calls == [] then []
    else var n := |calls| - 1;
         Proofs(calls[..n]) + if calls[n].ProveCall? && calls[n].ok then [calls[n]] else []
  }

  function LastBatch(genesis: L1Batch, calls: seq<L1Call>): L1Batch {
    if calls == [] then genesis else calls[|calls| - 1].batch
  }

  /** Each call names the batch of the one before it as predecessor, the first one names genesis. */
  ghost predicate IsChain(genesis: L1Batch, calls: seq<L1Call>) {
    forall i :: 0 <= i < |calls| ==>
      (calls[i].CommitCall? || calls[i].ProveCall?) && calls[i].previous == LastBatch(genesis, calls[..i])
  }

  function Initial(genesis: L1Batch): SenderState { SenderState(genesis, genesis, []) }

  lemma {:induction false} CommitsPush(calls: seq<L1Call>, call: L1Call)
    ensures Commits(calls + [call]) == if call.CommitCall? && call.ok then Commits(calls) + [call] else Commits(calls)
    ensures Proofs(calls + [call]) == if call.ProveCall? && call.ok then Proofs(calls) + [call] else Proofs(calls)
  {
    assert (calls + [call])[..|calls|] == calls;
  }

  /** The sender's memory against the calls it has made. */
  ghost predicate Chained(genesis: L1Batch, s: SenderState, calls: seq<L1Call>) {
    && IsChain(genesis, Commits(calls)) && s.lastCommitted == LastBatch(genesis, Commits(calls))
    && IsChain(genesis, Proofs(calls)) && s.lastProved == LastBatch(genesis, Proofs(calls))
  }

  lemma {:induction false} RequestKeepsChains(genesis: L1Batch, s: SenderState, calls: seq<L1Call>, r: Request)
    requires Chained(genesis, s, calls)
    ensures Chained(genesis, Processed(s, r.command, r.ok), calls + [CallFor(s, r.command, r.ok)])
  {
    var call := CallFor(s, r.command, r.ok);
    CommitsPush(calls, call);
    ChainGrows(genesis, Commits(calls), call);
    ChainGrows(genesis, Proofs(calls), call);
  }

  /**
    For every sequence of commands and L1 outcomes the successful commits form a chain from genesis,
    the successful proofs do too, and every further attempt extends the chain's last batch.
   */
  lemma {:induction false} ChainsFromGenesis(genesis: L1Batch, requests: seq<Request>)
    ensures Chained(genesis, ProcessAll(Initial(genesis), requests), CallsOf(Initial(genesis), requests))
  {
    if requests != [] {
      var n := |requests| - 1;
      ChainsFromGenesis(genesis, requests[..n]);
      RequestKeepsChains(genesis, ProcessAll(Initial(genesis), requests[..n]), CallsOf(Initial(genesis), requests[..n]),
                         requests[n]);
    }
  }

  lemma {:induction false} ChainGrows(genesis: L1Batch, chain: seq<L1Call>, call: L1Call)
    requires IsChain(genesis, chain)
    ensures (call.CommitCall? || call.ProveCall?) && call.previous == LastBatch(genesis, chain) ==>
      IsChain(genesis, chain + [call])
  {
    var longer := chain + [call];
    forall i | 0 <= i < |chain|
      ensures longer[i] == chain[i] && longer[..i] == chain[..i]
    {
    }
    assert longer[..|chain|] == chain;
  }

  /** Every attempt, failed or not, names the last successful batch of its kind as predecessor. */
  lemma {:induction false} AttemptsExtendTheChain(genesis: L1Batch, requests: seq<Request>, i: nat)
    requires i < |requests|
    ensures var calls := CallsOf(Initial(genesis), requests);
            && (calls[i].CommitCall? ==> calls[i].previous == LastBatch(genesis, Commits(calls[..i])))
            && (calls[i].ProveCall? ==> calls[i].previous == LastBatch(genesis, Proofs(calls[..i])))
  {
    CallAt(Initial(genesis), requests, i);
    ChainsFromGenesis(genesis, requests[..i]);
  }

  /** The `i`-th call is what the sender's memory after the requests before it dictates. */
  lemma {:induction false} CallAt(s: SenderState, requests: seq<Request>, i: nat)
    requires i < |requests|
    ensures CallsOf(s, requests)[..i] == CallsOf(s, requests[..i])
    ensures CallsOf(s, requests)[i] == CallFor(ProcessAll(s, requests[..i]), requests[i].command, requests[i].ok)
  {
    CallsOfPrefix(s, requests, i);
    CallsOfPrefix(s, requests, i + 1);
    var longer := requests[..i + 1];
    assert longer[..i] == requests[..i] && longer[i] == requests[i];
    assert CallsOf(s, requests)[i] == CallsOf(s, longer)[i];
  }

  lemma {:induction false} CallsOfPrefix(s: SenderState, requests: seq<Request>, n: nat)
    requires n <= |requests|
    ensures CallsOf(s, requests)[..n] == CallsOf(s, requests[..n])
    decreases |requests|
  {
    if n < |requests| {
      CallsOfPrefix(s, requests[..|requests| - 1], n);
      assert requests[..|requests| - 1][..n] == requests[..n];
    } else {
      assert requests[..n] == requests;
    }
  }

  /** The successful commits and proofs among the requests. */
  function Effective(requests: seq<Request>): seq<Request> {
    if requests == [] then []
    else var n := |requests| - 1;
         Effective(requests[..n]) + if requests[n].ok && !requests[n].command.Execute? then [requests[n]] else []
  }

  function IsEffective(): Request -> bool {
    (r: Request) => r.ok && (r.command.Commit? || r.command.Prove?)
  }

  lemma {:induction false} EffectiveIsMatching(requests: seq<Request>)
    ensures Effective(requests) == Matching(requests, IsEffective())
  {
    if requests != [] {
      var n := |requests| - 1;
      EffectiveIsMatching(requests[..n]);
      MatchingPush(requests[..n], requests[n], IsEffective());
      assert requests == requests[..n] + [requests[n]];
    }
  }

  /** The effective requests are exactly the successful commits and proofs, in order of arrival. */
  lemma {:induction false} EffectiveSelects(requests: seq<Request>)
    ensures IsSelection(requests, IsEffective(), Effective(requests))
  {
    EffectiveIsMatching(requests);
    MatchingIsSelection(requests, IsEffective());
  }

  /** Every request makes one call, of its own kind, for its own batch, with L1's verdict on it. */
  lemma {:induction false} CallsMatchRequests(genesis: L1Batch, requests: seq<Request>, i: nat)
    requires i < |requests|
    ensures var call, command := CallsOf(Initial(genesis), requests)[i], requests[i].command;
            && (call.CommitCall? <==> command.Commit?) && (call.ProveCall? <==> command.Prove?)
            && (call.ExecuteCall? <==> command.Execute?)
            && call.batch == command.batch && call.ok == requests[i].ok
  {
    CallAt(Initial(genesis), requests, i);
  }

  /** Leaving out all failed requests and all executes makes the same successful commits and proofs. */
  lemma {:induction false} FailuresAndExecutesDoNotDisturb(genesis: L1Batch, requests: seq<Request>)
    ensures var all, few := CallsOf(Initial(genesis), requests), CallsOf(Initial(genesis), Effective(requests));
            Commits(all) == Commits(few) && Proofs(all) == Proofs(few)
    ensures var all, few := ProcessAll(Initial(genesis), requests), ProcessAll(Initial(genesis), Effective(requests));
            all.lastCommitted == few.lastCommitted && all.lastProved == few.lastProved
  {
    if requests != [] {
      var n := |requests| - 1;
      var last, kept := requests[n], Effective(requests[..n]);
      FailuresAndExecutesDoNotDisturb(genesis, requests[..n]);
      assert CallsOf(Initial(genesis), requests)[..n] == CallsOf(Initial(genesis), requests[..n]);
      if last.ok && !last.command.Execute? {
        var few := CallsOf(Initial(genesis), kept + [last]);
        assert (kept + [last])[..|kept|] == kept;
        assert few[..|kept|] == CallsOf(Initial(genesis), kept);
      } else {
        assert kept + [] == kept;
      }
    }
  }

  // ---------- The Merkle tree ----------

  /** The priority operations of all execute requests, successful or not. */
  function ExecutedOps(requests: seq<Request>): seq<nat> {
    if requests == [] then []
    else var n := |requests| - 1;
         ExecutedOps(requests[..n])
         + if requests[n].command.Execute? then requests[n].command.batch.header.priorityOps else []
  }

  /** The priority operations of the successful execute requests only. */
  function SettledOps(requests: seq<Request>): seq<nat> {
    if requests == [] then []
    else var n := |requests| - 1;
         SettledOps(requests[..n])
         + if requests[n].command.Execute? && requests[n].ok then requests[n].command.batch.header.priorityOps else []
  }

  lemma {:induction false} TreeHoldsAllExecutes(genesis: L1Batch, requests: seq<Request>)
    ensures ProcessAll(Initial(genesis), requests).tree == ExecutedOps(requests)
  {
    if requests != [] {
      TreeHoldsAllExecutes(genesis, requests[..|requests| - 1]);
    }
  }

  ghost predicate FailedExecute(r: Request) { r.command.Execute? && !r.ok }

  lemma {:induction false} SettledIsNoLonger(requests: seq<Request>)
    ensures |SettledOps(requests)| <= |ExecutedOps(requests)|
    ensures SettledOps(requests) == ExecutedOps(requests) <==>
      forall i :: 0 <= i < |requests| && FailedExecute(requests[i]) ==>
        requests[i].command.batch.header.priorityOps == []
  {
    if requests != [] {
      var n := |requests| - 1;
      SettledIsNoLonger(requests[..n]);
      var settled, executed := SettledOps(requests[..n]), ExecutedOps(requests[..n]);
      assert forall i :: 0 <= i < n ==> requests[..n][i] == requests[i];
      if SettledOps(requests) == ExecutedOps(requests) {
        assert |settled| == |executed|;
        assert settled == SettledOps(requests)[..|settled|];
        assert executed == ExecutedOps(requests)[..|executed|];
      }
    }
  }

  /**
    The tree of an execute call holds the operations of all execute requests up to and including it;
    it holds exactly those of the settled batches and its own if and only if no earlier execute
    carrying priority operations failed.
   */
  lemma {:induction false} ExecuteTree(genesis: L1Batch, requests: seq<Request>, i: nat)
    requires i < |requests| && requests[i].command.Execute?
    ensures var call := CallsOf(Initial(genesis), requests)[i];
            var own := requests[i].command.batch.header.priorityOps;
            && call.ExecuteCall?
            && call.tree == ExecutedOps(requests[..i + 1])
            && (call.tree == SettledOps(requests[..i]) + own <==>
                forall k :: 0 <= k < i && FailedExecute(requests[k]) ==>
                  requests[k].command.batch.header.priorityOps == [])
  {
    var own := requests[i].command.batch.header.priorityOps;
    CallAt(Initial(genesis), requests, i);
    assert requests[..i + 1][..i] == requests[..i];
    TreeHoldsAllExecutes(genesis, requests[..i]);
    SettledIsNoLonger(requests[..i]);
    assert forall k :: 0 <= k < i ==> requests[..i][k] == requests[k];
    var executed, settled := ExecutedOps(requests[..i]), SettledOps(requests[..i]);
    if executed + own == settled + own {
      assert |executed| == |settled|;
      assert executed == (executed + own)[..|executed|] == settled;
    }
  }

  /**
    The failing case: an execute that L1 refused and that is sent again. The second call's tree holds the
    batch's operations twice, which is not what settling the batch once needs.
   */
  lemma {:induction false} RetriedExecuteRepeatsOps(genesis: L1Batch, batch: L1Batch)
    requires batch.header.priorityOps != []
    ensures var ops := batch.header.priorityOps;
            var requests := [Request(Execute(batch), false), Request(Execute(batch), true)];
            && CallsOf(Initial(genesis), requests)[1] == ExecuteCall(batch, ops + ops, true)
            && SettledOps(requests) == ops
  {
    var first, second := Request(Execute(batch), false), Request(Execute(batch), true);
    var requests := [first, second];
    assert requests[..1] == [first] && [first][..0] == [];
    assert SettledOps([first]) == [];
    CallAt(Initial(genesis), requests, 1);
  }
}
