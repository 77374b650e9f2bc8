/** The watcher that moves L1 priority transactions into the pool (crates/l1_sidecar/src/l1_watcher.rs). */
module L1Watcher {
  import opened Wrappers
  import opened AddressMap
  import opened TransactionPool

  /** A decoded `NewPriorityRequest` event. */
  datatype L1Tx = L1Tx(serialId: nat, ethBlock: nat, hash: nat, initiator: Address, maxFeePerGas: nat)

  function ToTransaction(tx: L1Tx): (r: Transaction)
    ensures r.hash == tx.hash && r.initiator == tx.initiator && r.maxFeePerGas == tx.maxFeePerGas
    ensures r.origin.L1? && r.origin.serialId == tx.serialId
  {
    Transaction(tx.hash, tx.initiator, tx.maxFeePerGas, L1(tx.serialId))
  }

  function ToTransactions(txs: seq<L1Tx>): (r: seq<Transaction>)
    ensures |r| == |txs|
    ensures forall i :: 0 <= i < |txs| ==> r[i] == ToTransaction(txs[i])
  {
    seq(|txs|, i requires 0 <= i < |txs| => ToTransaction(txs[i]))
  }

  datatype PollError = ProviderFailed | GapInIds | IdMismatch

  datatype WatcherState = WatcherState(nextExpected: nat, fromBlock: nat)

  /** What a poll does: fail, find nothing new, or deliver transactions and move on. */
  datatype Outcome = Failed(error: PollError) | Nothing | Delivered(txs: seq<L1Tx>, state: WatcherState)

  /** The transactions left after skipping the leading ones that are already known. */
  function SkipKnown(txs: seq<L1Tx>, nextExpected: nat): seq<L1Tx> {
    if txs != [] && txs[0].serialId < nextExpected then SkipKnown(txs[1..], nextExpected) else txs
  }

  /**
    The outcome of a poll whose head query gave `head` and whose log query gave `logs`; `None` stands
    for a failed query, a missing block or an undecodable event.
   */
  function PollOutcome(w: WatcherState, head: Option<nat>, logs: Option<seq<L1Tx>>): Outcome {
    if head.None? then Failed(ProviderFailed)
    else if w.fromBlock > head.value then Nothing
    else if logs.None? then Failed(ProviderFailed)
    else if logs.value == [] then Nothing
    else if logs.value[|logs.value| - 1].serialId - logs.value[0].serialId + 1 != |logs.value| then Failed(GapInIds)
    else var unseen := SkipKnown(logs.value, w.nextExpected);
         if unseen == [] then Nothing
         else if unseen[0].serialId != w.nextExpected then Failed(IdMismatch)
         else Delivered(unseen, WatcherState(unseen[|unseen| - 1].serialId + 1, head.value + 1))
  }

  class L1Watcher {
    const pool: TxPool
    var nextExpectedPriorityId: nat
    var fromBlock: nat

    constructor (pool: TxPool)
      ensures this.pool == pool && State() == WatcherState(0, 0)
    {
      this.pool, nextExpectedPriorityId, fromBlock := pool, 0, 0;
    }

    function State(): WatcherState
      reads this
    {
      WatcherState(nextExpectedPriorityId, fromBlock)
    }

    method Poll(head: Option<nat>, logs: Option<seq<L1Tx>>) returns (result: Result<(), PollError>)
      requires pool.Valid()
      modifies this, pool
      ensures pool.Valid()
      ensures match PollOutcome(old(State()), head, logs)
        case Failed(error) => result == Err(error) && State() == old(State()) && pool.inner == old(pool.inner)
                              && pool.submissionNumber == old(pool.submissionNumber)
        case Nothing => result == Ok(()) && State() == old(State()) && pool.inner == old(pool.inner)
                        && pool.submissionNumber == old(pool.submissionNumber)
        case Delivered(txs, state) =>
          && result == Ok(()) && State() == state
          && pool.inner == InsertAll(old(pool.inner), pool.order, old(pool.submissionNumber), ToTransactions(txs))
          && pool.submissionNumber == (old(pool.submissionNumber) + |txs|) % U64
    {
      if head.None? {
        return Err(ProviderFailed);
      }
      var toBlock := head.value;
      if fromBlock > toBlock {
        return Ok(());
      }
      if logs.None? {
        return Err(ProviderFailed);
      }
      var priorityTxs := logs.value;
      if priorityTxs == [] {
        return Ok(());
      }
      var first, last := priorityTxs[0], priorityTxs[|priorityTxs| - 1];
      if last.serialId - first.serialId + 1 != |priorityTxs| {
        return Err(GapInIds);
      }
      var newTxs := priorityTxs;
      while newTxs != [] && newTxs[0].serialId < nextExpectedPriorityId
        invariant SkipKnown(newTxs, nextExpectedPriorityId) == SkipKnown(priorityTxs, nextExpectedPriorityId)
      {
        newTxs := newTxs[1..];
      }
      if newTxs == [] {
        return Ok(());
      }
      if newTxs[0].serialId != nextExpectedPriorityId {
        return Err(IdMismatch);
      }
      var next := newTxs[|newTxs| - 1].serialId + 1;
      AddAll(newTxs);
      nextExpectedPriorityId := next;
      fromBlock := toBlock + 1;
      return Ok(());
    }

    /** Adds the new transactions to the pool one by one. */
    method AddAll(newTxs: seq<L1Tx>)
      requires pool.Valid()
      modifies pool
      ensures pool.Valid()
      ensures pool.inner == InsertAll(old(pool.inner), pool.order, old(pool.submissionNumber), ToTransactions(newTxs))
      ensures pool.submissionNumber == (old(pool.submissionNumber) + |newTxs|) % U64
    {
      ghost var txs := ToTransactions(newTxs);
      for i := 0 to |newTxs|
        invariant pool.Valid()
        invariant pool.submissionNumber == (old(pool.submissionNumber) + i) % U64
        invariant pool.inner == InsertAll(old(pool.inner), pool.order, old(pool.submissionNumber), txs[..i])
      {
        InsertAllStep(old(pool.inner), pool.order, old(pool.submissionNumber), txs, i);
        pool.AddTx(ToTransaction(newTxs[i]));
      }
      assert txs[..|txs|] == txs;
    }
  }

  // ---------- Contiguity of one delivery ----------

  function Ids(txs: seq<L1Tx>): (ids: seq<nat>)
    ensures |ids| == |txs|
  {
    seq(|txs|, i requires 0 <= i < |txs| => txs[i].serialId)
  }

  /** The numbers from `from` up to but excluding `to`. */
  function Range(from: nat, to: nat): (r: seq<nat>)
    ensures |r| == if from <= to then to - from else 0
  {
    seq(if from <= to then to - from else 0, i requires 0 <= i => from + i)
  }

  ghost predicate StrictlyIncreasing(txs: seq<L1Tx>) {
    forall i, j :: 0 <= i < j < |txs| ==> txs[i].serialId < txs[j].serialId
  }

  /** Ids that grow strictly grow at least as fast as their positions. */
  lemma {:induction false} IdsOutrunPositions(txs: seq<L1Tx>, i: nat, j: nat)
    requires StrictlyIncreasing(txs) && i <= j < |txs|
    ensures txs[j].serialId - txs[i].serialId >= j - i
    decreases j - i
  {
    if i < j {
      IdsOutrunPositions(txs, i, j - 1);
    }
  }

  lemma {:induction false} SkippedAreKnown(txs: seq<L1Tx>, nextExpected: nat)
    ensures var unseen := SkipKnown(txs, nextExpected);
            && |unseen| <= |txs|
            && unseen == txs[|txs| - |unseen|..]
            && forall i :: 0 <= i < |txs| - |unseen| ==> txs[i].serialId < nextExpected
  {
    if txs != [] && txs[0].serialId < nextExpected {
      SkippedAreKnown(txs[1..], nextExpected);
      var unseen := SkipKnown(txs, nextExpected);
      assert txs[1..][|txs| - 1 - |unseen|..] == txs[|txs| - |unseen|..];
      assert forall i :: 1 <= i < |txs| ==> txs[i] == txs[1..][i - 1];
    }
  }

  /** Strictly increasing ids that span no more than their count are consecutive. */
  lemma {:induction false} NoRoomForGaps(txs: seq<L1Tx>)
    requires txs != [] && StrictlyIncreasing(txs)
    requires txs[|txs| - 1].serialId - txs[0].serialId + 1 == |txs|
    ensures Ids(txs) == Range(txs[0].serialId, txs[0].serialId + |txs|)
  {
    forall i | 0 <= i < |txs|
      ensures txs[i].serialId == txs[0].serialId + i
    {
      IdsOutrunPositions(txs, 0, i);
      IdsOutrunPositions(txs, i, |txs| - 1);
    }
  }

  /** The first `d` ids of a response are known, the next one is not: `d` are skipped. */
  lemma {:induction false} SkipsExactly(txs: seq<L1Tx>, nextExpected: nat, d: nat)
    requires d < |txs| && txs[d].serialId >= nextExpected
    requires forall i :: 0 <= i < d ==> txs[i].serialId < nextExpected
    ensures SkipKnown(txs, nextExpected) == txs[d..]
  {
    if d > 0 {
      assert forall i :: 0 <= i < |txs| - 1 ==> txs[1..][i] == txs[i + 1];
      SkipsExactly(txs[1..], nextExpected, d - 1);
      assert txs[1..][d - 1..] == txs[d..];
    }
  }

  /** The poll delivers, and what it delivers is exactly the ids from the expected one on. */
  ghost predicate DeliversContiguously(w: WatcherState, head: nat, logs: seq<L1Tx>) {
    var outcome := PollOutcome(w, Some(head), Some(logs));
    outcome.Delivered? && Ids(outcome.txs) == Range(w.nextExpected, outcome.state.nextExpected)
  }

  /**
    What a response must look like: it spans as many ids as it holds transactions and, with `d` the distance
    from its first id to the expected one, exactly its first `d` are known and the rest is strictly increasing.
   */
  ghost predicate Continues(logs: seq<L1Tx>, nextExpected: nat)
    requires logs != []
  {
    var d := nextExpected - logs[0].serialId;
    && logs[|logs| - 1].serialId - logs[0].serialId + 1 == |logs|
    && 0 <= d < |logs|
    && (forall i :: 0 <= i < d ==> logs[i].serialId < nextExpected)
    && logs[d].serialId >= nextExpected
    && StrictlyIncreasing(logs[d..])
  }

  /**
    For every response: delivery is contiguous if and only if there are new blocks and the response, as it
    stands before the poll, continues from the expected id. Whatever else gets past the checks is delivered
    with a gap or a repeat.
   */
  lemma {:induction false} DeliveryIsContiguousIff(w: WatcherState, head: nat, logs: seq<L1Tx>)
    ensures DeliversContiguously(w, head, logs)
       <==> w.fromBlock <= head && logs != [] && Continues(logs, w.nextExpected)
  {
    if DeliversContiguously(w, head, logs) {
      ContiguousContinues(w, head, logs);
    }
    if w.fromBlock <= head && logs != [] && Continues(logs, w.nextExpected) {
      ContinuingIsDelivered(w, head, logs);
    }
  }

  lemma {:induction false} ContinuingIsDelivered(w: WatcherState, head: nat, logs: seq<L1Tx>)
    requires w.fromBlock <= head && logs != [] && Continues(logs, w.nextExpected)
    ensures DeliversContiguously(w, head, logs)
  {
    var d := w.nextExpected - logs[0].serialId;
    SkipsExactly(logs, w.nextExpected, d);
    ContinuingIsSkippedTo(logs, w.nextExpected);
    PollCases(w, Some(head), Some(logs), d);
  }

  /** Skipping leads to the expected id, and from there on the ids are consecutive. */
  lemma {:induction false} ContinuingIsSkippedTo(logs: seq<L1Tx>, nextExpected: nat)
    requires logs != [] && Continues(logs, nextExpected)
    ensures var txs := SkipKnown(logs, nextExpected);
            && txs != [] && txs[0].serialId == nextExpected
            && txs[|txs| - 1].serialId + 1 == nextExpected + |txs|
            && Ids(txs) == Range(nextExpected, nextExpected + |txs|)
  {
    var d := nextExpected - logs[0].serialId;
    SkipsExactly(logs, nextExpected, d);
    var txs := logs[d..];
    assert txs[|txs| - 1] == logs[|logs| - 1];
    IdsOutrunPositions(txs, 0, |txs| - 1);
    NoRoomForGaps(txs);
  }

  lemma {:induction false} ContiguousContinues(w: WatcherState, head: nat, logs: seq<L1Tx>)
    requires DeliversContiguously(w, head, logs)
    ensures w.fromBlock <= head && logs != [] && Continues(logs, w.nextExpected)
  {
    var txs := PollOutcome(w, Some(head), Some(logs)).txs;
    SkippedAreKnown(logs, w.nextExpected);
    assert txs[|txs| - 1] == logs[|logs| - 1];
    assert forall i :: 0 <= i < |txs| ==> txs[i].serialId == Ids(txs)[i] == w.nextExpected + i;
    assert txs == logs[w.nextExpected - logs[0].serialId..];
  }

  /** A strictly increasing response is delivered without gap or repeat, old ids included or not. */
  lemma {:induction false} IncreasingResponseIsContiguous(w: WatcherState, head: Option<nat>, logs: seq<L1Tx>)
    requires StrictlyIncreasing(logs) && PollOutcome(w, head, Some(logs)).Delivered?
    ensures var Delivered(txs, state) := PollOutcome(w, head, Some(logs));
            w.nextExpected < state.nextExpected && Ids(txs) == Range(w.nextExpected, state.nextExpected)
  {
    var Delivered(txs, state) := PollOutcome(w, head, Some(logs));
    SkippedAreKnown(logs, w.nextExpected);
    var skipped := |logs| - |txs|;
    assert txs[0] == logs[skipped] && txs[|txs| - 1] == logs[|logs| - 1];
    IdsOutrunPositions(logs, 0, skipped);
    IdsOutrunPositions(logs, skipped, |logs| - 1);
    NoRoomForGaps(txs);
  }

  /** Without strict increase the checks let a repeat and a gap through. */
  lemma {:induction false} ChecksAloneAreNotEnough()
    ensures exists logs: seq<L1Tx> ::
      var outcome := PollOutcome(WatcherState(0, 0), Some(0), Some(logs));
      outcome.Delivered? && Ids(outcome.txs) == [0, 0, 2] && outcome.state.nextExpected == 3
  {
    var a, b := L1Tx(0, 0, 0, 0, 0), L1Tx(2, 0, 0, 0, 0);
    var logs := [a, a, b];
    assert SkipKnown(logs, 0) == logs;
    assert Ids(logs) == [0, 0, 2];
    assert PollOutcome(WatcherState(0, 0), Some(0), Some(logs)) == Delivered(logs, WatcherState(3, 1));
  }

  /** `d` is the number of leading transactions that are known already. */
  ghost predicate SkipsTo(logs: seq<L1Tx>, nextExpected: nat, d: nat) {
    && d <= |logs| && (forall i :: 0 <= i < d ==> logs[i].serialId < nextExpected)
    && (d < |logs| ==> logs[d].serialId >= nextExpected)
  }

  /**
    When a poll fails, and with what: the provider's failures come first, then a span of ids that differs from
    the count, then a first unknown id that is not the expected one. It finds nothing new without new blocks or
    without unknown ids. Otherwise it delivers from the first unknown transaction on.
   */
  lemma {:induction false} PollCases(w: WatcherState, head: Option<nat>, logs: Option<seq<L1Tx>>, d: nat)
    requires logs.Some? ==> SkipsTo(logs.value, w.nextExpected, d)
    ensures var outcome := PollOutcome(w, head, logs);
            && (head.None? ==> outcome == Failed(ProviderFailed))
            && (head.Some? && w.fromBlock > head.value ==> outcome == Nothing)
            && (head.Some? && w.fromBlock <= head.value && logs.None? ==> outcome == Failed(ProviderFailed))
            && (head.Some? && w.fromBlock <= head.value && logs.Some? ==>
                  var all := logs.value;
                  && (all == [] ==> outcome == Nothing)
                  && (all != [] && all[|all| - 1].serialId + 1 != all[0].serialId + |all| ==>
                        outcome == Failed(GapInIds))
                  && (all != [] && all[|all| - 1].serialId + 1 == all[0].serialId + |all| ==>
                        if d == |all| then outcome == Nothing
                        else if all[d].serialId != w.nextExpected then outcome == Failed(IdMismatch)
                        else outcome == Delivered(
                               all[d..], WatcherState(all[|all| - 1].serialId + 1, head.value + 1))))
  {
    if logs.Some? {
      SkipsAre(logs.value, w.nextExpected, d);
    }
  }

  lemma {:induction false} SkipsAre(logs: seq<L1Tx>, nextExpected: nat, d: nat)
    requires SkipsTo(logs, nextExpected, d)
    ensures SkipKnown(logs, nextExpected) == logs[d..]
  {
    if d < |logs| {
      SkipsExactly(logs, nextExpected, d);
    } else {
      SkippedAreKnown(logs, nextExpected);
      var unseen := SkipKnown(logs, nextExpected);
      if unseen != [] {
        NotKnown(logs, nextExpected);
      }
    }
  }

  lemma {:induction false} NotKnown(logs: seq<L1Tx>, nextExpected: nat)
    ensures var unseen := SkipKnown(logs, nextExpected); unseen != [] ==> unseen[0].serialId >= nextExpected
  {
    if logs != [] && logs[0].serialId < nextExpected {
      NotKnown(logs[1..], nextExpected);
    }
  }

  // ---------- Safety over whole runs ----------

  datatype Response = Response(head: Option<nat>, logs: Option<seq<L1Tx>>)

  function AfterPoll(w: WatcherState, r: Response): WatcherState {
    var outcome := PollOutcome(w, r.head, r.logs);
    if outcome.Delivered? then outcome.state else w
  }

  function DeliveredBy(w: WatcherState, r: Response): seq<L1Tx> {
    var outcome := PollOutcome(w, r.head, r.logs);
    if outcome.Delivered? then outcome.txs else []
  }

  function AfterPolls(w: WatcherState, rs: seq<Response>): WatcherState
    decreases |rs|
  {
    if rs == [] then w else AfterPolls(AfterPoll(w, rs[0]), rs[1..])
  }

  /** Everything the polls add to the pool, in order. */
  function DeliveredOver(w: WatcherState, rs: seq<Response>): seq<L1Tx>
    decreases |rs|
  {
    if rs == [] then [] else DeliveredBy(w, rs[0]) + DeliveredOver(AfterPoll(w, rs[0]), rs[1..])
  }

  lemma {:induction false} PollsDeliverRange(w: WatcherState, rs: seq<Response>)
    requires forall i :: 0 <= i < |rs| && rs[i].logs.Some? ==> StrictlyIncreasing(rs[i].logs.value)
    ensures w.nextExpected <= AfterPolls(w, rs).nextExpected
    ensures Ids(DeliveredOver(w, rs)) == Range(w.nextExpected, AfterPolls(w, rs).nextExpected)
    decreases |rs|
  {
    if rs != [] {
      var w' := AfterPoll(w, rs[0]);
      PollsDeliverRange(w', rs[1..]);
      if PollOutcome(w, rs[0].head, rs[0].logs).Delivered? {
        IncreasingResponseIsContiguous(w, rs[0].head, rs[0].logs.value);
      }
      var a, b := DeliveredBy(w, rs[0]), DeliveredOver(w', rs[1..]);
      assert Ids(a + b) == Ids(a) + Ids(b);
    }
  }

  /** Over every run of increasing responses the pool receives the ids 0, 1, 2, ... once each, in order. */
  lemma {:induction false} WatcherIsSafe(rs: seq<Response>)
    requires forall i :: 0 <= i < |rs| && rs[i].logs.Some? ==> StrictlyIncreasing(rs[i].logs.value)
    ensures var w := WatcherState(0, 0);
            Ids(DeliveredOver(w, rs)) == Range(0, AfterPolls(w, rs).nextExpected)
  {
    PollsDeliverRange(WatcherState(0, 0), rs);
  }

  // ---------- Completeness on an append-only L1 ----------

  /** The priority requests of each L1 block, from block 0 to the head. */
  type Chain = seq<seq<L1Tx>>

  function Events(blocks: Chain): seq<L1Tx> {
    if blocks == [] then [] else Events(blocks[..|blocks| - 1]) + blocks[|blocks| - 1]
  }

  /** L1 numbers its priority requests 0, 1, 2, ... in block order. */
  ghost predicate Numbered(blocks: Chain) {
    Ids(Events(blocks)) == Range(0, |Events(blocks)|)
  }

  lemma {:induction false} EventsAppend(a: Chain, b: Chain)
    ensures Events(a + b) == Events(a) + Events(b)
    decreases |b|
  {
    if b == [] {
      assert a + b == a;
    } else {
      var n := |b| - 1;
      EventsAppend(a, b[..n]);
      assert (a + b)[..|a + b| - 1] == a + b[..n];
    }
  }

  /** `eth_getLogs` over a block range. */
  function GetLogs(blocks: Chain, from: nat, to: nat): seq<L1Tx>
    requires from <= to < |blocks|
  {
    Events(blocks[from..to + 1])
  }

  /** A poll that reads the head of `seen` and then the logs from the possibly longer `later`. */
  function PollChain(w: WatcherState, seen: Chain, later: Chain): Response
    requires seen != [] && seen <= later
  {
    var head := |seen| - 1;
    Response(Some(head), if w.fromBlock <= head then Some(GetLogs(later, w.fromBlock, head)) else None)
  }

  /** Every request below `fromBlock` has been delivered and no other. */
  ghost predicate CaughtUp(w: WatcherState, blocks: Chain) {
    w.fromBlock <= |blocks| && w.nextExpected == |Events(blocks[..w.fromBlock])|
  }

  /** A response holding exactly the next ids is delivered whole. */
  lemma {:induction false} NextIdsAreDelivered(w: WatcherState, head: nat, txs: seq<L1Tx>)
    requires w.fromBlock <= head && Ids(txs) == Range(w.nextExpected, w.nextExpected + |txs|)
    ensures PollOutcome(w, Some(head), Some(txs))
         == if txs == [] then Nothing else Delivered(txs, WatcherState(w.nextExpected + |txs|, head + 1))
  {
    if txs != [] {
      assert forall i :: 0 <= i < |txs| ==> txs[i].serialId == Ids(txs)[i] == w.nextExpected + i;
      assert SkipKnown(txs, w.nextExpected) == txs;
    }
  }

  /** The requests below block `from` and those from it on. */
  lemma {:induction false} SplitAt(blocks: Chain, from: nat)
    requires from <= |blocks| && Numbered(blocks)
    ensures var below, above := Events(blocks[..from]), Events(blocks[from..]);
            && Events(blocks) == below + above
            && Ids(above) == Range(|below|, |below| + |above|)
  {
    var below, above := Events(blocks[..from]), Events(blocks[from..]);
    assert blocks == blocks[..from] + blocks[from..];
    EventsAppend(blocks[..from], blocks[from..]);
    var all := Events(blocks);
    forall i | 0 <= i < |above|
      ensures above[i].serialId == |below| + i
    {
      assert above[i] == all[|below| + i];
      assert Ids(all)[|below| + i] == |below| + i;
    }
  }

  /** On an append-only, consecutively numbered L1 no poll fails, and a poll at head h delivers everything up to h. */
  lemma {:induction false} PollIsComplete(w: WatcherState, seen: Chain, later: Chain)
    requires seen != [] && seen <= later && Numbered(seen) && CaughtUp(w, seen)
    ensures var r := PollChain(w, seen, later);
            && !PollOutcome(w, r.head, r.logs).Failed?
            && w.nextExpected <= |Events(seen)|
            && DeliveredBy(w, r) == Events(seen)[w.nextExpected..]
            && CaughtUp(AfterPoll(w, r), seen)
            && AfterPoll(w, r).nextExpected == |Events(seen)|
  {
    var from := w.fromBlock;
    SplitAt(seen, from);
    assert seen[..|seen|] == seen;
    if from < |seen| {
      assert later[from..|seen|] == seen[from..];
      NextIdsAreDelivered(w, |seen| - 1, Events(seen[from..]));
    } else {
      assert seen[from..] == [];
    }
  }

  /** One poll's view of L1: the chain when the head is read and when the logs are read. */
  datatype View = View(seen: Chain, later: Chain)

  /** L1 only ever grows. */
  ghost predicate Growing(views: seq<View>) {
    forall i :: 0 <= i < |views| ==>
      && views[i].seen != [] && views[i].seen <= views[i].later
      && (i > 0 ==> views[i - 1].later <= views[i].seen)
  }

  /** The watcher's state and all deliveries after polling each view in turn. */
  ghost function PollAll(w: WatcherState, views: seq<View>): (WatcherState, seq<L1Tx>)
    requires Growing(views)
  {
    if views == [] then (w, [])
    else var n := |views| - 1;
         var (before, delivered) := PollAll(w, views[..n]);
         var r := PollChain(before, views[n].seen, views[n].later);
         (AfterPoll(before, r), delivered + DeliveredBy(before, r))
  }

  lemma {:induction false} CaughtUpGrows(w: WatcherState, a: Chain, b: Chain)
    requires a <= b && CaughtUp(w, a)
    ensures CaughtUp(w, b)
  {
    assert a[..w.fromBlock] == b[..w.fromBlock];
  }

  /** After polling a growing L1 the watcher has delivered exactly all requests up to the last head, in order. */
  lemma {:induction false} WatcherIsComplete(views: seq<View>)
    requires views != [] && Growing(views) && forall i :: 0 <= i < |views| ==> Numbered(views[i].seen)
    ensures var (w, delivered) := PollAll(WatcherState(0, 0), views);
            var last := views[|views| - 1].seen;
            delivered == Events(last) && w.nextExpected == |delivered| && CaughtUp(w, last)
  {
    var n := |views| - 1;
    if n > 0 {
      WatcherIsComplete(views[..n]);
    }
    LastPollIsComplete(views);
  }

  /** What holds after all views but the last holds after the last. */
  lemma {:induction false} LastPollIsComplete(views: seq<View>)
    requires views != [] && Growing(views) && Numbered(views[|views| - 1].seen)
    requires |views| > 1 ==>
      var (w, delivered) := PollAll(WatcherState(0, 0), views[..|views| - 1]);
      var previous := views[|views| - 2].seen;
      delivered == Events(previous) && w.nextExpected == |delivered| && CaughtUp(w, previous)
    ensures var (w, delivered) := PollAll(WatcherState(0, 0), views);
            var last := views[|views| - 1].seen;
            delivered == Events(last) && w.nextExpected == |delivered| && CaughtUp(w, last)
  {
    var n := |views| - 1;
    var (before, delivered) := PollAll(WatcherState(0, 0), views[..n]);
    PollAllLast(WatcherState(0, 0), views);
    if n == 0 {
      NextPollIsComplete(before, delivered, [], views[n]);
    } else {
      PrefixTransitive(views[n - 1].seen, views[n - 1].later, views[n].seen);
      NextPollIsComplete(before, delivered, views[n - 1].seen, views[n]);
    }
  }

  lemma {:induction false} PollAllLast(w: WatcherState, views: seq<View>)
    requires views != [] && Growing(views)
    ensures var (before, delivered) := PollAll(w, views[..|views| - 1]);
            var r := PollChain(before, views[|views| - 1].seen, views[|views| - 1].later);
            PollAll(w, views) == (AfterPoll(before, r), delivered + DeliveredBy(before, r))
  {
  }

  lemma {:induction false} PrefixTransitive(a: Chain, b: Chain, c: Chain)
    requires a <= b <= c
    ensures a <= c
  {
    assert a == b[..|a|] && b == c[..|b|];
    assert a == c[..|a|];
  }

  /** A watcher that has delivered all of `previous` delivers the rest of a longer chain with its next poll. */
  lemma {:induction false} NextPollIsComplete(w: WatcherState, delivered: seq<L1Tx>, previous: Chain, view: View)
    requires CaughtUp(w, previous) && delivered == Events(previous) && w.nextExpected == |delivered|
    requires previous <= view.seen <= view.later && view.seen != [] && Numbered(view.seen)
    ensures var r := PollChain(w, view.seen, view.later);
            && delivered + DeliveredBy(w, r) == Events(view.seen)
            && AfterPoll(w, r).nextExpected == |Events(view.seen)| && CaughtUp(AfterPoll(w, r), view.seen)
  {
    CaughtUpGrows(w, previous, view.seen);
    EventsGrow(previous, view.seen);
    PollIsComplete(w, view.seen, view.later);
  }

  lemma {:induction false} EventsGrow(a: Chain, b: Chain)
    requires a <= b
    ensures |Events(a)| <= |Events(b)| && Events(a) + Events(b)[|Events(a)|..] == Events(b)
  {
    assert b == a + b[|a|..];
    EventsAppend(a, b[|a|..]);
  }
}
