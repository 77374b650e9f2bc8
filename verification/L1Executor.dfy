/** The automatic executor driving commit, prove and execute (crates/l1_sidecar/src/l1_executor.rs). */
module L1Executor {
  import opened Wrappers
  import opened CommitmentGenerator
  import opened L1Sender

  /** One turn of the executor's loop: the stop flag, the sealed batches, the random root and L1's answers. */
  datatype Turn = Turn(stop: bool, chain: Blockchain, root: nat, commitOk: bool, proveOk: bool, executeOk: bool)

  datatype Failure = CommitFailed | ProveFailed | ExecuteFailed

  /** The priority operations of `batches`, in order. */
  function Ops(batches: seq<L1Batch>): seq<nat> {
    if batches == [] then []
    else Ops(batches[..|batches| - 1]) + batches[|batches| - 1].header.priorityOps
  }

  function Previous(genesis: L1Batch, batches: seq<L1Batch>): L1Batch {
    if batches == [] then genesis else batches[|batches| - 1]
  }

  /** Commit, prove and execute of `batch` after `batches`, each with its outcome. */
  function CommitOf(genesis: L1Batch, batches: seq<L1Batch>, batch: L1Batch, ok: bool): L1Call {
    CommitCall(Previous(genesis, batches), batch, ok)
  }

  function ProveOf(genesis: L1Batch, batches: seq<L1Batch>, batch: L1Batch, ok: bool): L1Call {
    ProveCall(Previous(genesis, batches), batch, ok)
  }

  function ExecuteOf(batches: seq<L1Batch>, batch: L1Batch, ok: bool): L1Call {
    ExecuteCall(batch, Ops(batches + [batch]), ok)
  }

  /** C1 P1 E1 C2 P2 E2 ..., all successful. */
  function Rounds(genesis: L1Batch, batches: seq<L1Batch>): (calls: seq<L1Call>)
    ensures |calls| == 3 * |batches|
  {
    if batches == [] then []
    else var n := |batches| - 1;
         var before, batch := batches[..n], batches[n];
         Rounds(genesis, before)
         + [CommitOf(genesis, before, batch, true), ProveOf(genesis, before, batch, true),
            ExecuteOf(before, batch, true)]
  }

  /** The calls of a round that stopped at the given failure. */
  function Broken(genesis: L1Batch, batches: seq<L1Batch>, batch: L1Batch, failure: Failure): seq<L1Call> {
    match failure
    case CommitFailed => [CommitOf(genesis, batches, batch, false)]
    case ProveFailed => [CommitOf(genesis, batches, batch, true), ProveOf(genesis, batches, batch, false)]
    case ExecuteFailed => [CommitOf(genesis, batches, batch, true), ProveOf(genesis, batches, batch, true),
                           ExecuteOf(batches, batch, false)]
  }

  /** `last` holds the batch of the broken round, if there is one. */
  predicate Ends(result: Result<(), Failure>, last: seq<L1Batch>) { |last| == if result.Ok? then 0 else 1 }

  /** All calls of a run: complete rounds for `batches`, then the broken round if the run failed. */
  function RunCalls(genesis: L1Batch, batches: seq<L1Batch>, last: seq<L1Batch>, result: Result<(), Failure>)
    : seq<L1Call>
    requires Ends(result, last)
  {
    if result.Ok? then Rounds(genesis, batches)
    else Rounds(genesis, batches) + Broken(genesis, batches, last[0], result.error)
  }

  /** Batches numbered 1, 2, 3, ... */
  ghost predicate NumberedFromOne(batches: seq<L1Batch>) {
    forall i :: 0 <= i < |batches| ==> batches[i].header.number == i + 1
  }

  /** The memo holds exactly these metadata for these batches. */
  ghost predicate Remembered(batches: seq<L1Batch>, memo: map<nat, L1Batch>) {
    forall i :: 0 <= i < |batches| ==>
      batches[i].header.number in memo && memo[batches[i].header.number] == batches[i]
  }

  /** The sender has made exactly the calls of complete rounds for `batches`. */
  ghost predicate UpTo(genesis: L1Batch, batches: seq<L1Batch>, s: SenderState, calls: seq<L1Call>) {
    && calls == Rounds(genesis, batches)
    && s == SenderState(Previous(genesis, batches), Previous(genesis, batches), Ops(batches))
  }

  /** Batches 1, 2, 3, ..., each as the memo has it. */
  ghost predicate Kept(batches: seq<L1Batch>, memo: map<nat, L1Batch>) {
    NumberedFromOne(batches) && Remembered(batches, memo)
  }

  lemma {:induction false} NextIsKept(
    batches: seq<L1Batch>, batch: L1Batch, memo: map<nat, L1Batch>, memo': map<nat, L1Batch>)
    requires Kept(batches, memo)
    requires batch.header.number == |batches| + 1 && memo' == memo[batch.header.number := batch]
    ensures Kept(batches + [batch], memo')
  {
  }

  // ---------- How far a run gets ----------

  /** A run after some turns: rounds completed, what the generator remembers, and how it ended if it did. */
  datatype Progress =
    | Going(rounds: nat, memo: map<nat, L1Batch>)
    | Stopped(rounds: nat, memo: map<nat, L1Batch>)
    | Refused(rounds: nat, memo: map<nat, L1Batch>, failure: Failure)

  /** One more turn: stop when told to, wait for a batch that is not there, otherwise settle the next batch. */
  function OneTurn(config: Config, rounds: nat, memo: map<nat, L1Batch>, turn: Turn): Progress {
    var next := rounds + 1;
    if turn.stop then Stopped(rounds, memo)
    else if next !in memo && next !in turn.chain then Going(rounds, memo)
    else var batch := if next in memo then memo[next] else Generate(config, turn.chain[next], turn.root);
         var memo' := memo[next := batch];
         if !turn.commitOk then Refused(rounds, memo', CommitFailed)
         else if !turn.proveOk then Refused(rounds, memo', ProveFailed)
         else if !turn.executeOk then Refused(rounds, memo', ExecuteFailed)
         else Going(next, memo')
  }

  function Drive(config: Config, memo: map<nat, L1Batch>, turns: seq<Turn>): Progress {
    if turns == [] then Going(0, memo)
    else var before := Drive(config, memo, turns[..|turns| - 1]);
         if before.Going? then OneTurn(config, before.rounds, before.memo, turns[|turns| - 1]) else before
  }

  /** A run that has ended takes no further turns. */
  lemma {:induction false} EndedStays(config: Config, memo: map<nat, L1Batch>, turns: seq<Turn>, n: nat)
    requires n <= |turns| && !Drive(config, memo, turns[..n]).Going?
    ensures Drive(config, memo, turns) == Drive(config, memo, turns[..n])
    decreases |turns|
  {
    if n == |turns| {
      assert turns[..n] == turns;
    } else {
      var front := turns[..|turns| - 1];
      assert front[..n] == turns[..n];
      EndedStays(config, memo, front, n);
    }
  }

  lemma {:induction false} NextTurn(
    config: Config, memo: map<nat, L1Batch>, turns: seq<Turn>, i: nat, rounds: nat, now: map<nat, L1Batch>)
    requires i < |turns| && Drive(config, memo, turns[..i]) == Going(rounds, now)
    ensures Drive(config, memo, turns[..i + 1]) == OneTurn(config, rounds, now, turns[i])
    ensures !OneTurn(config, rounds, now, turns[i]).Going? ==>
      Drive(config, memo, turns) == OneTurn(config, rounds, now, turns[i])
  {
    assert turns[..i + 1][..i] == turns[..i];
    if !OneTurn(config, rounds, now, turns[i]).Going? {
      EndedStays(config, memo, turns, i + 1);
    }
  }

  /** Turns in which nothing is refused, nobody stops the run and the next batch is sealed settle one batch each. */
  lemma {:induction false} SealedBatchesAreSettled(config: Config, memo: map<nat, L1Batch>, turns: seq<Turn>)
    requires forall i :: 0 <= i < |turns| ==>
      !turns[i].stop && i + 1 in turns[i].chain && turns[i].commitOk && turns[i].proveOk && turns[i].executeOk
    ensures Drive(config, memo, turns).Going? && Drive(config, memo, turns).rounds == |turns|
  {
    if turns != [] {
      var n := |turns| - 1;
      assert forall i :: 0 <= i < n ==> turns[..n][i] == turns[i];
      SealedBatchesAreSettled(config, memo, turns[..n]);
    }
  }

  /** A run ends early only because it was stopped, or because L1 refused a call of the kind it names. */
  lemma {:induction false} RefusalIsL1s(config: Config, memo: map<nat, L1Batch>, turns: seq<Turn>)
    ensures var p := Drive(config, memo, turns);
            && (p.Stopped? ==> exists i :: 0 <= i < |turns| && turns[i].stop)
            && (p.Refused? ==> exists i :: 0 <= i < |turns| && !turns[i].stop && match p.failure
                 case CommitFailed => !turns[i].commitOk
                 case ProveFailed => turns[i].commitOk && !turns[i].proveOk
                 case ExecuteFailed => turns[i].commitOk && turns[i].proveOk && !turns[i].executeOk)
  {
    if turns != [] {
      var n := |turns| - 1;
      RefusalIsL1s(config, memo, turns[..n]);
      assert forall i :: 0 <= i < n ==> turns[..n][i] == turns[i];
    }
  }

  class L1ExecutorModeAuto {
    var lastExecutedBatch: nat
    const generator: CommitmentGenerator
    const sender: L1Sender

    constructor (generator: CommitmentGenerator, sender: L1Sender)
      ensures this.generator == generator && this.sender == sender && lastExecutedBatch == 0
    {
      this.generator, this.sender, lastExecutedBatch := generator, sender, 0;
    }

    /**
      Runs until told to stop, until L1 refuses a call, or until the turns are used up. The calls it
      makes are complete rounds for the batches 1, 2, 3, ... and at most one broken round after them.
     */
    method Run(turns: seq<Turn>)
      returns (result: Result<(), Failure>, ghost batches: seq<L1Batch>, ghost last: seq<L1Batch>)
      requires generator.Valid() && lastExecutedBatch == 0
      requires sender.State() == Initial(Genesis(generator.config)) && sender.calls == []
      modifies this, generator, sender
      ensures generator.Valid() && lastExecutedBatch == |batches| && Kept(batches + last, generator.batches)
      ensures Ends(result, last) && sender.calls == RunCalls(Genesis(generator.config), batches, last, result)
      ensures var p := Drive(generator.config, old(generator.batches), turns);
              && |batches| == p.rounds && generator.batches == p.memo
              && (p.Refused? <==> result.Err?) && (p.Refused? ==> result.error == p.failure)
    {
      batches, last := [], [];
      ghost var genesis := Genesis(generator.config);
      for i := 0 to |turns|
        invariant generator.Valid() && lastExecutedBatch == |batches| && Kept(batches, generator.batches)
        invariant UpTo(genesis, batches, sender.State(), sender.calls)
        invariant Drive(generator.config, old(generator.batches), turns[..i]) == Going(|batches|, generator.batches)
      {
        NextTurn(generator.config, old(generator.batches), turns, i, |batches|, generator.batches);
        var turn := turns[i];
        assert batches + [] == batches;
        if turn.stop {
          return Ok(()), batches, [];
        }
        var nextBatch := lastExecutedBatch + 1;
        ghost var memo := generator.batches;
        var metadata := generator.GetOrGenerateMetadata(nextBatch, turn.chain, turn.root);
        if metadata.None? {
          continue;
        }
        var batch := metadata.value;
        NextIsKept(batches, batch, memo, generator.batches);
        var outcome := Settle(batch, turn, genesis, batches);
        if outcome.Err? {
          return outcome, batches, [batch];
        }
        lastExecutedBatch := nextBatch;
        batches := batches + [batch];
      }
      assert batches + [] == batches && turns[..|turns|] == turns;
      return Ok(()), batches, [];
    }

    /** One round: commit, prove and execute `batch`, stopping at the first call L1 refuses. */
    method Settle(batch: L1Batch, turn: Turn, ghost genesis: L1Batch, ghost batches: seq<L1Batch>)
      returns (result: Result<(), Failure>)
      requires UpTo(genesis, batches, sender.State(), sender.calls)
      modifies sender
      ensures result.Ok? ==> UpTo(genesis, batches + [batch], sender.State(), sender.calls)
      ensures result.Err? ==> sender.calls == Rounds(genesis, batches) + Broken(genesis, batches, batch, result.error)
      ensures result == if !turn.commitOk then Err(CommitFailed) else if !turn.proveOk then Err(ProveFailed)
                        else if !turn.executeOk then Err(ExecuteFailed) else Ok(())
    {
      assert (batches + [batch])[..|batches|] == batches;
      sender.HandleCommit(batch, turn.commitOk);
      if !turn.commitOk {
        return Err(CommitFailed);
      }
      sender.HandleProve(batch, turn.proveOk);
      if !turn.proveOk {
        return Err(ProveFailed);
      }
      sender.HandleExecute(batch, turn.executeOk);
      if !turn.executeOk {
        return Err(ExecuteFailed);
      }
      return Ok(());
    }
  }

  // ---------- What the shape of the calls implies ----------

  function Committed(calls: seq<L1Call>): nat {
    if calls == [] then 0
    else var c := calls[|calls| - 1]; Committed(calls[..|calls| - 1]) + if c.CommitCall? && c.ok then 1 else 0
  }

  function Proved(calls: seq<L1Call>): nat {
    if calls == [] then 0
    else var c := calls[|calls| - 1]; Proved(calls[..|calls| - 1]) + if c.ProveCall? && c.ok then 1 else 0
  }

  function Executed(calls: seq<L1Call>): nat {
    if calls == [] then 0
    else var c := calls[|calls| - 1]; Executed(calls[..|calls| - 1]) + if c.ExecuteCall? && c.ok then 1 else 0
  }

  /** Positions 0, 1, 2 modulo 3 are commits, proofs and executes, and only the last call may fail. */
  ghost predicate InLockstep(calls: seq<L1Call>) {
    forall i :: 0 <= i < |calls| ==>
      && (i % 3 == 0 ==> calls[i].CommitCall?)
      && (i % 3 == 1 ==> calls[i].ProveCall?)
      && (i % 3 == 2 ==> calls[i].ExecuteCall?)
      && (i < |calls| - 1 ==> calls[i].ok)
  }

  lemma {:induction false} RoundsAreInLockstep(genesis: L1Batch, batches: seq<L1Batch>)
    ensures InLockstep(Rounds(genesis, batches))
    ensures forall i :: 0 <= i < 3 * |batches| ==> Rounds(genesis, batches)[i].ok
  {
    if batches != [] {
      var n := |batches| - 1;
      RoundsAreInLockstep(genesis, batches[..n]);
      var before, calls := Rounds(genesis, batches[..n]), Rounds(genesis, batches);
      assert |before| == 3 * n;
      forall i | 0 <= i < |calls|
        ensures calls[i].ok && (i % 3 == 0 ==> calls[i].CommitCall?) && (i % 3 == 1 ==> calls[i].ProveCall?)
                && (i % 3 == 2 ==> calls[i].ExecuteCall?)
      {
        if i < 3 * n {
          assert calls[i] == before[i];
        }
      }
    }
  }

  lemma {:induction false} BrokenRunIsInLockstep(
    genesis: L1Batch, batches: seq<L1Batch>, batch: L1Batch, failure: Failure)
    ensures InLockstep(Rounds(genesis, batches) + Broken(genesis, batches, batch, failure))
  {
    RoundsAreInLockstep(genesis, batches);
    var rounds, broken := Rounds(genesis, batches), Broken(genesis, batches, batch, failure);
    var calls := rounds + broken;
    assert |rounds| == 3 * |batches|;
    forall i | 0 <= i < |calls|
      ensures (i % 3 == 0 ==> calls[i].CommitCall?) && (i % 3 == 1 ==> calls[i].ProveCall?)
              && (i % 3 == 2 ==> calls[i].ExecuteCall?) && (i < |calls| - 1 ==> calls[i].ok)
    {
      if i < |rounds| {
        assert calls[i] == rounds[i];
      } else {
        assert calls[i] == broken[i - |rounds|];
      }
    }
  }

  /**
    The calls of an auto-only run are a prefix of C P E C P E ... in which all but the last succeeded; the
    last one failed if and only if the run did, and a run that did not fail ends with an execute.
   */
  lemma {:induction false} AutoRunIsInLockstep(
    genesis: L1Batch, batches: seq<L1Batch>, last: seq<L1Batch>, result: Result<(), Failure>)
    requires Ends(result, last)
    ensures var calls := RunCalls(genesis, batches, last, result);
            && InLockstep(calls)
            && (result.Ok? <==> calls == [] || calls[|calls| - 1].ok)
            && (result.Ok? ==> |calls| % 3 == 0)
  {
    if result.Ok? {
      RoundsAreInLockstep(genesis, batches);
    } else {
      BrokenRunIsInLockstep(genesis, batches, last[0], result.error);
    }
  }

  /** At every moment of a lockstep run: executed <= proved <= committed <= executed + 1. */
  lemma {:induction false} LockstepBounds(calls: seq<L1Call>, n: nat)
    requires InLockstep(calls) && n <= |calls|
    ensures var now := calls[..n];
            Executed(now) <= Proved(now) <= Committed(now) <= Executed(now) + 1
  {
    LockstepCounts(calls, n);
  }

  /** Before the last call the counts are exactly those of the position. */
  lemma {:induction false} LockstepCounts(calls: seq<L1Call>, n: nat)
    requires InLockstep(calls) && n <= |calls|
    ensures var now := calls[..n];
            if n > 0 && !calls[n - 1].ok then
              && n == |calls|
              && Committed(now) == (n + 1) / 3 && Proved(now) == n / 3 && Executed(now) == (n - 1) / 3
            else
              Committed(now) == (n + 2) / 3 && Proved(now) == (n + 1) / 3 && Executed(now) == n / 3
  {
    if n > 0 {
      LockstepCounts(calls, n - 1);
      assert calls[..n][..n - 1] == calls[..n - 1];
      assert n >= 2 ==> calls[n - 2].ok;
    }
  }

  /** The batch that round `n` builds on. */
  function Predecessor(genesis: L1Batch, batches: seq<L1Batch>, n: nat): L1Batch
    requires n <= |batches|
  {
    if n == 0 then genesis else batches[n - 1]
  }

  /** The calls of the `n`-th complete round. */
  lemma {:induction false} RoundAt(genesis: L1Batch, batches: seq<L1Batch>, n: nat)
    requires n < |batches|
    ensures var calls, previous := Rounds(genesis, batches), Predecessor(genesis, batches, n);
            && calls[3 * n] == CommitCall(previous, batches[n], true)
            && calls[3 * n + 1] == ProveCall(previous, batches[n], true)
            && calls[3 * n + 2] == ExecuteCall(batches[n], Ops(batches[..n + 1]), true)
    decreases |batches|
  {
    var m := |batches| - 1;
    var front := batches[..m];
    if n < m {
      RoundAt(genesis, front, n);
      assert front[..n + 1] == batches[..n + 1];
      assert forall i :: 0 <= i < 3 * m ==> Rounds(genesis, batches)[i] == Rounds(genesis, front)[i];
    } else {
      assert front + [batches[m]] == batches == batches[..n + 1];
    }
  }

  /**
    Every call of an auto-only run, the refused one included, is about the batch of its round, and commits and
    proofs name the batch of the round before as predecessor; a failed run says which kind of call was refused.
   */
  lemma {:induction false} CallsFollowRounds(
    genesis: L1Batch, batches: seq<L1Batch>, last: seq<L1Batch>, result: Result<(), Failure>, i: nat)
    requires Ends(result, last) && i < |RunCalls(genesis, batches, last, result)|
    ensures var all, calls := batches + last, RunCalls(genesis, batches, last, result);
            && i / 3 < |all| && calls[i].batch == all[i / 3]
            && (!calls[i].ExecuteCall? ==> calls[i].previous == Predecessor(genesis, all, i / 3))
            && (!calls[i].ok ==> match result
                 case Ok(_) => false
                 case Err(CommitFailed) => calls[i].CommitCall?
                 case Err(ProveFailed) => calls[i].ProveCall?
                 case Err(ExecuteFailed) => calls[i].ExecuteCall?)
  {
    var n := i / 3;
    if n < |batches| {
      RoundAt(genesis, batches, n);
      assert i == 3 * n || i == 3 * n + 1 || i == 3 * n + 2;
      assert RunCalls(genesis, batches, last, result)[i] == Rounds(genesis, batches)[i];
    }
  }

  /**
    The `n`-th execute of an auto-only run, the last one even if L1 refused it, uses a tree of exactly the
    operations of batches 1..n, in order.
   */
  lemma {:induction false} ExecuteNUsesFirstNBatches(
    genesis: L1Batch, batches: seq<L1Batch>, last: seq<L1Batch>, result: Result<(), Failure>, n: nat)
    requires Ends(result, last) && 0 < n && 3 * n <= |RunCalls(genesis, batches, last, result)|
    ensures var all := batches + last;
            && n <= |all|
            && RunCalls(genesis, batches, last, result)[3 * n - 1]
               == ExecuteCall(all[n - 1], Ops(all[..n]), result.Ok? || n <= |batches|)
  {
    var all := batches + last;
    if n <= |batches| {
      RoundAt(genesis, batches, n - 1);
      assert all[..n] == batches[..n];
    } else {
      assert n == |batches| + 1 && result == Err(ExecuteFailed);
      assert all[..n] == batches + [last[0]];
    }
  }
}
