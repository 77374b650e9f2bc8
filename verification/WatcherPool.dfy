/**
  The watcher feeding the pool while other threads submit and take transactions: the watcher is one
  thread of the pool's lock-level machine, and its `add_tx` calls interleave with everything else.
 */
module WatcherPool {
  import opened Wrappers
  import opened TransactionPool
  import opened PoolLocks
  import L1Watcher

  type WState = L1Watcher.WatcherState

  /** The watcher between polls, or inside one with transactions still to hand to the pool. */
  datatype Phase = Resting | Delivering(queue: seq<L1Watcher.L1Tx>, next: WState)

  /** `delivered` lists all requests that polls have accepted so far. */
  datatype System = System(pool: State, watcher: WState, phase: Phase, delivered: seq<L1Watcher.L1Tx>)

  /** The thread the watcher runs on. */
  const WATCHER: ThreadId := 0

  datatype Step =
    | Poll(response: L1Watcher.Response)
    | Deliver
    | Finish
    | Move(action: Action)

  /** Only the watcher submits L1 transactions; its thread does nothing in the pool but `add_tx`. */
  ghost predicate Allowed(a: Action) {
    match a
    case StartAdd(t, tx) => t != WATCHER && !tx.origin.L1?
    case StartAddMany(t, txs) => t != WATCHER && forall i :: 0 <= i < |txs| ==> !txs[i].origin.L1?
    case StartTake(t, _) => t != WATCHER
    case _ => true
  }

  ghost predicate CanStep(s: System, step: Step) {
    match step
    case Poll(r) => s.phase.Resting? && At(s.pool, WATCHER).Idle?
                    && (r.logs.Some? ==> L1Watcher.StrictlyIncreasing(r.logs.value))
    case Deliver => s.phase.Delivering? && s.phase.queue != [] && At(s.pool, WATCHER).Idle?
    case Finish => s.phase.Delivering? && s.phase.queue == [] && At(s.pool, WATCHER).Idle?
    case Move(a) => Allowed(a) && Enabled(s.pool, a)
  }

  ghost function Take(s: System, step: Step): System
    requires CanStep(s, step)
  {
    match step
    case Poll(r) =>
      var outcome := L1Watcher.PollOutcome(s.watcher, r.head, r.logs);
      if outcome.Delivered?
      then s.(phase := Delivering(outcome.txs, outcome.state), delivered := s.delivered + outcome.txs) else s
    case Deliver =>
      s.(pool := Next(s.pool, StartAdd(WATCHER, L1Watcher.ToTransaction(s.phase.queue[0]))),
         phase := s.phase.(queue := s.phase.queue[1..]))
    case Finish => s.(watcher := s.phase.next, phase := Resting)
    case Move(a) => s.(pool := Next(s.pool, a))
  }

  // ---------- What is under way ----------

  ghost predicate CarriesNoL1(pc: Pc) {
    match pc
    case Priced(tx, _) => !tx.origin.L1?
    case Numbered(entry) => !entry.transaction.origin.L1?
    case Reserved(txs) => forall i :: 0 <= i < |txs| ==> !txs[i].origin.L1?
    case Filling(txs, _) => forall i :: 0 <= i < |txs| ==> !txs[i].origin.L1?
    case _ => true
  }

  /** The id the watcher will expect once it has handed over what it is delivering. */
  ghost function Target(s: System): nat {
    if s.phase.Delivering? then s.phase.next.nextExpected else s.watcher.nextExpected
  }

  // ---------- Whole requests along the way ----------

  /** The L1 transactions among `entries`, in order. */
  function L1Txs(entries: seq<PoolTransaction>): (txs: seq<Transaction>)
    ensures forall i :: 0 <= i < |txs| ==> txs[i].origin.L1?
  {
    if entries == [] then []
    else var n := |entries| - 1;
         L1Txs(entries[..n]) + if entries[n].transaction.origin.L1? then [entries[n].transaction] else []
  }

  lemma {:induction false} L1TxsPush(entries: seq<PoolTransaction>, x: PoolTransaction)
    ensures L1Txs(entries + [x]) == L1Txs(entries) + if x.transaction.origin.L1? then [x.transaction] else []
  {
    assert (entries + [x])[..|entries|] == entries;
  }

  lemma {:induction false} L1TxsPrefix(entries: seq<PoolTransaction>, n: nat)
    requires n <= |entries|
    ensures L1Txs(entries[..n]) <= L1Txs(entries)
    decreases |entries|
  {
    if n < |entries| {
      L1TxsPrefix(entries[..|entries| - 1], n);
      assert entries[..|entries| - 1][..n] == entries[..n];
    } else {
      assert entries[..n] == entries;
    }
  }

  /** The serial ids of the L1 transactions among `entries`, in order. */
  function L1Ids(entries: seq<PoolTransaction>): (ids: seq<nat>)
    ensures |ids| == |L1Txs(entries)|
  {
    seq(|L1Txs(entries)|, i requires 0 <= i < |L1Txs(entries)| => L1Txs(entries)[i].origin.serialId)
  }

  /** The transaction the watcher's thread has in hand, on its way into the pool. */
  function TxInHand(pc: Pc): seq<Transaction> {
    match pc
    case Priced(tx, _) => if tx.origin.L1? then [tx] else []
    case Numbered(entry) => if entry.transaction.origin.L1? then [entry.transaction] else []
    case _ => []
  }

  ghost function Waiting(s: System): seq<L1Watcher.L1Tx> { if s.phase.Delivering? then s.phase.queue else [] }

  /** Requests in the pool's history, the one in hand and the queue are all that was accepted, unchanged. */
  ghost predicate RequestsOk(s: System) {
    L1Txs(s.pool.added) + TxInHand(At(s.pool, WATCHER)) + L1Watcher.ToTransactions(Waiting(s))
    == L1Watcher.ToTransactions(s.delivered)
  }

  /** The accepted requests are numbered 0, 1, 2, ... without gap, and only the watcher carries L1 transactions. */
  ghost predicate IdsOk(s: System) {
    && L1Watcher.Ids(s.delivered) == L1Watcher.Range(0, Target(s))
    && (At(s.pool, WATCHER).Idle? || At(s.pool, WATCHER).Priced? || At(s.pool, WATCHER).Numbered?)
    && (s.phase.Resting? ==> At(s.pool, WATCHER).Idle?)
    && forall t: ThreadId :: t != WATCHER ==> CarriesNoL1(At(s.pool, t))
  }

  lemma {:induction false} InsertOneMovesTx(p: State, t: ThreadId)
    requires Enabled(p, InsertOne(t)) && (t != WATCHER ==> CarriesNoL1(At(p, t)))
    ensures var p' := Next(p, InsertOne(t));
            L1Txs(p'.added) + TxInHand(At(p', WATCHER)) == L1Txs(p.added) + TxInHand(At(p, WATCHER))
  {
    var entry, txs := At(p, t).entry, L1Txs(p.added);
    L1TxsPush(p.added, entry);
    assert txs + [] == txs;
    assert t == WATCHER ==> txs + TxInHand(At(p, t)) + [] == txs + TxInHand(At(p, t));
  }

  lemma {:induction false} InsertNextMovesNoTx(p: State, t: ThreadId)
    requires Enabled(p, InsertNext(t)) && CarriesNoL1(At(p, t)) && t != WATCHER
    ensures var p' := Next(p, InsertNext(t));
            L1Txs(p'.added) == L1Txs(p.added) && At(p', WATCHER) == At(p, WATCHER)
  {
    var p' := Next(p, InsertNext(t));
    L1TxsPush(p.added, p'.added[|p.added|]);
    assert L1Txs(p.added) + [] == L1Txs(p.added);
  }

  lemma {:induction false} TxThenHistory(p: State, a: Action)
    requires Allowed(a) && Enabled(p, a)
    requires At(p, WATCHER).Idle? || At(p, WATCHER).Priced? || At(p, WATCHER).Numbered?
    requires forall t: ThreadId :: t != WATCHER ==> CarriesNoL1(At(p, t))
    ensures L1Txs(Next(p, a).added) + TxInHand(At(Next(p, a), WATCHER)) == L1Txs(p.added) + TxInHand(At(p, WATCHER))
  {
    match a
    case InsertOne(t) => InsertOneMovesTx(p, t);
    case InsertNext(t) => InsertNextMovesNoTx(p, t);
    case _ => assert Next(p, a).added == p.added;
  }

  lemma {:induction false} MoveKeepsRequests(s: System, a: Action)
    requires IdsOk(s) && RequestsOk(s) && Allowed(a) && Enabled(s.pool, a)
    ensures RequestsOk(Take(s, Move(a)))
  {
    TxThenHistory(s.pool, a);
  }

  lemma {:induction false} PollKeepsRequests(s: System, r: L1Watcher.Response)
    requires RequestsOk(s) && CanStep(s, Poll(r))
    ensures RequestsOk(Take(s, Poll(r)))
  {
    var outcome := L1Watcher.PollOutcome(s.watcher, r.head, r.logs);
    if outcome.Delivered? {
      var before, more := L1Watcher.ToTransactions(s.delivered), L1Watcher.ToTransactions(outcome.txs);
      assert L1Watcher.ToTransactions(s.delivered + outcome.txs) == before + more;
      assert L1Watcher.ToTransactions([]) == [];
      assert L1Txs(s.pool.added) + TxInHand(At(s.pool, WATCHER)) + [] == before;
    }
  }

  lemma {:induction false} DeliverKeepsRequests(s: System)
    requires RequestsOk(s) && CanStep(s, Deliver)
    ensures RequestsOk(Take(s, Deliver))
  {
    var s', queue := Take(s, Deliver), s.phase.queue;
    FirstInHand(s);
    QueueShrinks(queue);
    assert TxInHand(At(s.pool, WATCHER)) == [];
    Regroup(L1Txs(s.pool.added), [L1Watcher.ToTransaction(queue[0])], L1Watcher.ToTransactions(queue[1..]));
    assert Waiting(s) == queue && Waiting(s') == queue[1..];
  }

  lemma {:induction false} FirstInHand(s: System)
    requires CanStep(s, Deliver)
    ensures var s' := Take(s, Deliver);
            && s'.pool.added == s.pool.added && s'.delivered == s.delivered
            && TxInHand(At(s'.pool, WATCHER)) == [L1Watcher.ToTransaction(s.phase.queue[0])]
  {
  }

  lemma {:induction false} QueueShrinks(queue: seq<L1Watcher.L1Tx>)
    requires queue != []
    ensures L1Watcher.ToTransactions(queue)
         == [L1Watcher.ToTransaction(queue[0])] + L1Watcher.ToTransactions(queue[1..])
  {
  }

  lemma {:induction false} Regroup<T>(a: seq<T>, b: seq<T>, c: seq<T>)
    ensures a + [] + (b + c) == a + b + c
  {
  }

  ghost predicate SystemInv(s: System) { Inv(s.pool) && IdsOk(s) && RequestsOk(s) }

  lemma {:induction false} OthersCarryNoL1(p: State, a: Action, t: ThreadId)
    requires Allowed(a) && Enabled(p, a) && t != WATCHER && CarriesNoL1(At(p, t))
    ensures CarriesNoL1(At(Next(p, a), t))
  {
  }

  lemma {:induction false} WatcherStaysInAddTx(p: State, a: Action)
    requires Allowed(a) && Enabled(p, a)
    requires At(p, WATCHER).Idle? || At(p, WATCHER).Priced? || At(p, WATCHER).Numbered?
    ensures var pc := At(Next(p, a), WATCHER); pc.Idle? || pc.Priced? || pc.Numbered?
    ensures At(p, WATCHER).Idle? ==> At(Next(p, a), WATCHER).Idle?
  {
  }

  lemma {:induction false} MoveKeepsIds(s: System, a: Action)
    requires IdsOk(s) && Allowed(a) && Enabled(s.pool, a)
    ensures IdsOk(Take(s, Move(a)))
  {
    WatcherStaysInAddTx(s.pool, a);
    forall t: ThreadId | t != WATCHER
      ensures CarriesNoL1(At(Next(s.pool, a), t))
    {
      OthersCarryNoL1(s.pool, a, t);
    }
  }

  lemma {:induction false} PollKeepsIds(s: System, r: L1Watcher.Response)
    requires IdsOk(s) && CanStep(s, Poll(r))
    ensures IdsOk(Take(s, Poll(r)))
  {
    var outcome := L1Watcher.PollOutcome(s.watcher, r.head, r.logs);
    if outcome.Delivered? {
      L1Watcher.IncreasingResponseIsContiguous(s.watcher, r.head, r.logs.value);
      var a, b := s.watcher.nextExpected, outcome.state.nextExpected;
      assert L1Watcher.Ids(s.delivered + outcome.txs) == L1Watcher.Ids(s.delivered) + L1Watcher.Ids(outcome.txs);
      assert L1Watcher.Range(0, a) + L1Watcher.Range(a, b) == L1Watcher.Range(0, b);
    }
  }

  lemma {:induction false} DeliverKeepsIds(s: System)
    requires IdsOk(s) && CanStep(s, Deliver)
    ensures IdsOk(Take(s, Deliver))
  {
    assert forall t: ThreadId :: t != WATCHER ==> At(Take(s, Deliver).pool, t) == At(s.pool, t);
  }

  lemma {:induction false} StepKeepsInv(s: System, step: Step)
    requires SystemInv(s) && CanStep(s, step)
    ensures SystemInv(Take(s, step))
  {
    match step
    case Poll(r) =>
      PollKeepsIds(s, r);
      PollKeepsRequests(s, r);
    case Deliver =>
      InvKept(s.pool, StartAdd(WATCHER, L1Watcher.ToTransaction(s.phase.queue[0])));
      DeliverKeepsIds(s);
      DeliverKeepsRequests(s);
    case Finish =>
    case Move(a) =>
      InvKept(s.pool, a);
      MoveKeepsIds(s, a);
      MoveKeepsRequests(s, a);
  }

  ghost predicate IsSystemRun(s: System, steps: seq<Step>)
    decreases |steps|
  {
    steps == [] || (CanStep(s, steps[0]) && IsSystemRun(Take(s, steps[0]), steps[1..]))
  }

  ghost function AfterSteps(s: System, steps: seq<Step>): System
    requires IsSystemRun(s, steps)
    decreases |steps|
  {
    if steps == [] then s else AfterSteps(Take(s, steps[0]), steps[1..])
  }

  lemma {:induction false} SystemRunsKeepInv(s: System, steps: seq<Step>)
    requires SystemInv(s) && IsSystemRun(s, steps)
    ensures SystemInv(AfterSteps(s, steps))
    decreases |steps|
  {
    if steps != [] {
      StepKeepsInv(s, steps[0]);
      SystemRunsKeepInv(Take(s, steps[0]), steps[1..]);
    }
  }

  lemma {:induction false} SystemOrderIsFixed(s: System, steps: seq<Step>)
    requires IsSystemRun(s, steps)
    ensures AfterSteps(s, steps).pool.order == s.pool.order
    decreases |steps|
  {
    if steps != [] {
      SystemOrderIsFixed(Take(s, steps[0]), steps[1..]);
    }
  }

  function Start(order: TransactionOrder, impersonation: ImpersonationState): System {
    System(Init(order, impersonation), L1Watcher.WatcherState(0, 0), Resting, [])
  }

  // ---------- Main results ----------

  /**
    Under Fifo, without drops or clears, the L1 transactions among all that was ever taken are
    exactly the ids 0, ..., k-1 in order, however submissions and takes interleave.
   */
  lemma {:induction false} FifoTakesL1InOrder(impersonation: ImpersonationState, steps: seq<Step>)
    requires IsSystemRun(Start(Fifo, impersonation), steps)
    requires AfterSteps(Start(Fifo, impersonation), steps).pool.issued < U64
    requires AfterSteps(Start(Fifo, impersonation), steps).pool.removed == []
    ensures var taken := AfterSteps(Start(Fifo, impersonation), steps).pool.taken;
            L1Ids(taken) == L1Watcher.Range(0, |L1Ids(taken)|)
  {
    InitIsGood(Fifo, impersonation);
    SystemOrderIsFixed(Start(Fifo, impersonation), steps);
    SystemRunsKeepInv(Start(Fifo, impersonation), steps);
    var s := AfterSteps(Start(Fifo, impersonation), steps);
    GoodFifoIsAQueue(s.pool);
    QueuedTakesAreInOrder(s);
  }

  lemma {:induction false} GoodFifoIsAQueue(p: State)
    requires Inv(p) && p.issued < U64 && p.order.Fifo? && p.removed == []
    ensures p.taken + p.inner == p.added
  {
  }

  lemma {:induction false} QueuedTakesAreInOrder(s: System)
    requires IdsOk(s) && RequestsOk(s) && s.pool.taken + s.pool.inner == s.pool.added
    ensures L1Txs(s.pool.taken) <= L1Watcher.ToTransactions(s.delivered)
    ensures L1Ids(s.pool.taken) == L1Watcher.Range(0, |L1Ids(s.pool.taken)|)
  {
    var p := s.pool;
    assert p.taken == p.added[..|p.taken|];
    L1TxsPrefix(p.added, |p.taken|);
    HistoryIsAPrefix(s);
    PrefixTransitive(L1Txs(p.taken), L1Txs(p.added), L1Watcher.ToTransactions(s.delivered));
    forall k | 0 <= k < |L1Txs(p.taken)|
      ensures L1Ids(p.taken)[k] == k
    {
      IdIsPosition(s, L1Txs(p.taken), k);
    }
  }

  lemma {:induction false} PrefixTransitive<T>(a: seq<T>, b: seq<T>, c: seq<T>)
    requires a <= b <= c
    ensures a <= c
  {
    assert a == b[..|a|] == c[..|a|];
  }

  /** The `k`-th accepted request has serial id `k`. */
  lemma {:induction false} IdIsPosition(s: System, txs: seq<Transaction>, k: nat)
    requires IdsOk(s) && txs <= L1Watcher.ToTransactions(s.delivered) && k < |txs|
    ensures txs[k].origin == L1(k)
  {
    assert txs[k] == L1Watcher.ToTransactions(s.delivered)[k] == L1Watcher.ToTransaction(s.delivered[k]);
    assert L1Watcher.Ids(s.delivered)[k] == s.delivered[k].serialId;
  }

  /**
    Under the same conditions the L1 transactions ever taken are, one for one, the first requests that polls
    accepted: same hash, initiator, fee and serial id.
   */
  lemma {:induction false} FifoTakesRequestsUnchanged(impersonation: ImpersonationState, steps: seq<Step>, k: nat)
    requires IsSystemRun(Start(Fifo, impersonation), steps)
    requires AfterSteps(Start(Fifo, impersonation), steps).pool.issued < U64
    requires AfterSteps(Start(Fifo, impersonation), steps).pool.removed == []
    requires k < |L1Txs(AfterSteps(Start(Fifo, impersonation), steps).pool.taken)|
    ensures var s := AfterSteps(Start(Fifo, impersonation), steps);
            && k < |s.delivered|
            && var tx, request := L1Txs(s.pool.taken)[k], s.delivered[k];
               && tx.hash == request.hash && tx.initiator == request.initiator
               && tx.maxFeePerGas == request.maxFeePerGas && tx.origin == L1(request.serialId)
  {
    InitIsGood(Fifo, impersonation);
    SystemOrderIsFixed(Start(Fifo, impersonation), steps);
    StartIsOk(Fifo, impersonation);
    SystemRunsKeepInv(Start(Fifo, impersonation), steps);
    var s := AfterSteps(Start(Fifo, impersonation), steps);
    GoodFifoIsAQueue(s.pool);
    QueuedTakesAreInOrder(s);
    assert L1Txs(s.pool.taken)[k] == L1Watcher.ToTransactions(s.delivered)[k];
  }

  lemma {:induction false} StartIsOk(order: TransactionOrder, impersonation: ImpersonationState)
    ensures IdsOk(Start(order, impersonation)) && RequestsOk(Start(order, impersonation))
  {
  }

  /** An L1 entry of the history is at the position among the L1 transactions that its predecessors leave it. */
  lemma {:induction false} PositionAmongL1(entries: seq<PoolTransaction>, i: nat)
    requires i < |entries| && entries[i].transaction.origin.L1?
    ensures var k := |L1Txs(entries[..i])|;
            && k < |L1Txs(entries)| && L1Txs(entries)[k] == entries[i].transaction
            && |L1Txs(entries[..i + 1])| == k + 1
  {
    L1TxsPush(entries[..i], entries[i]);
    assert entries[..i] + [entries[i]] == entries[..i + 1];
    L1TxsPrefix(entries, i + 1);
    var k := |L1Txs(entries[..i])|;
    assert L1Txs(entries[..i + 1])[k] == L1Txs(entries)[k];
  }

  lemma {:induction false} LaterHasLargerId(s: System, i: nat, j: nat)
    requires IdsOk(s) && RequestsOk(s) && i < j < |s.pool.added|
    requires s.pool.added[i].transaction.origin.L1? && s.pool.added[j].transaction.origin.L1?
    ensures s.pool.added[i].transaction.origin.serialId < s.pool.added[j].transaction.origin.serialId
  {
    var entries := s.pool.added;
    PositionAmongL1(entries, i);
    PositionAmongL1(entries, j);
    HistoryIsAPrefix(s);
    IdIsPosition(s, L1Txs(entries), |L1Txs(entries[..i])|);
    IdIsPosition(s, L1Txs(entries), |L1Txs(entries[..j])|);
    assert entries[..j][..i + 1] == entries[..i + 1];
    L1TxsPrefix(entries[..j], i + 1);
  }

  lemma {:induction false} HistoryIsAPrefix(s: System)
    requires RequestsOk(s)
    ensures L1Txs(s.pool.added) <= L1Watcher.ToTransactions(s.delivered)
  {
  }

  lemma {:induction false} NumberGivesPosition(
    entries: seq<PoolTransaction>, x: PoolTransaction, y: PoolTransaction)
    returns (a: nat, b: nat)
    requires Increasing(entries) && x in entries && y in entries && x.submissionNumber < y.submissionNumber
    ensures a < b < |entries| && entries[a] == x && entries[b] == y
  {
    a :| a < |entries| && entries[a] == x;
    b :| b < |entries| && entries[b] == y;
  }

  /**
    Under either order, and with any drops and clears, L1 transactions of equal priority (under
    Fees: of equal max fee) are taken in the order of their serial ids.
   */
  lemma {:induction false} EqualFeesKeepL1Order(
    order: TransactionOrder, impersonation: ImpersonationState, steps: seq<Step>, i: nat, j: nat)
    requires IsSystemRun(Start(order, impersonation), steps)
    requires AfterSteps(Start(order, impersonation), steps).pool.issued < U64
    requires var taken := AfterSteps(Start(order, impersonation), steps).pool.taken;
             && i < j < |taken|
             && taken[i].transaction.origin.L1? && taken[j].transaction.origin.L1?
             && (order.Fees? ==> taken[i].transaction.maxFeePerGas == taken[j].transaction.maxFeePerGas)
    ensures var taken := AfterSteps(Start(order, impersonation), steps).pool.taken;
            taken[i].transaction.origin.serialId < taken[j].transaction.origin.serialId
  {
    InitIsGood(order, impersonation);
    SystemOrderIsFixed(Start(order, impersonation), steps);
    SystemRunsKeepInv(Start(order, impersonation), steps);
    var s := AfterSteps(Start(order, impersonation), steps);
    var x, y := s.pool.taken[i], s.pool.taken[j];
    ConservedMembers(s.pool);
    assert x in s.pool.taken && y in s.pool.taken;
    assert x.priority == y.priority;
    var a, b := NumberGivesPosition(s.pool.added, x, y);
    LaterHasLargerId(s, a, b);
  }
}
