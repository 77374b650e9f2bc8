/**
  The completed operations of the lock-level pool are the calls that threads made, each with its own
  arguments, in the order in which they took effect. Everything here is read off the actions alone.
 */
module PoolLinearization {
  import opened Wrappers
  import opened TransactionPool
  import opened PoolLocks

  /** The call a thread is in, with its arguments and the impersonation state it has read. */
  datatype Call = NoCall | Adding(tx: Transaction) | AddingMany(txs: seq<Transaction>)
                | Taking(n: nat) | TakingWith(n: nat, state: ImpersonationState)

  /** The impersonation state after the actions: the one set last. */
  function Current(initial: ImpersonationState, past: seq<Action>): ImpersonationState {
    if past == [] then initial
    else var n := |past| - 1;
         if past[n].SetImpersonation? then past[n].state else Current(initial, past[..n])
  }

  /** The call thread `t` is in after the actions. */
  function Called(initial: ImpersonationState, past: seq<Action>, t: ThreadId): Call {
    if past == [] then NoCall
    else var n := |past| - 1;
         var before := Called(initial, past[..n], t);
         match past[n]
         case StartAdd(u, tx) => if u == t then Adding(tx) else before
         case StartAddMany(u, txs) => if u == t then AddingMany(txs) else before
         case StartTake(u, limit) => if u == t then Taking(limit) else before
         case Inspect(u) =>
           if u == t && before.Taking? then TakingWith(before.n, Current(initial, past[..n])) else before
         case InsertOne(u) => if u == t then NoCall else before
         case FinishAdd(u) => if u == t then NoCall else before
         case FinishTake(u) => if u == t then NoCall else before
         case _ => before
  }

  /** The operation that an action completes, if any. */
  function Completes(initial: ImpersonationState, past: seq<Action>, a: Action): seq<AtomicOp> {
    match a
    case InsertOne(t) => var call := Called(initial, past, t); if call.Adding? then [AddOne(call.tx)] else []
    case FinishAdd(t) => var call := Called(initial, past, t); if call.AddingMany? then [AddMany(call.txs)] else []
    case FinishTake(t) =>
      var call := Called(initial, past, t); if call.TakingWith? then [TakeUpTo(call.n, call.state)] else []
    case DropMatching(f) => [DropAll(f)]
    case ClearPool => [ClearAll]
    case _ => []
  }

  /** All completed operations, in the order of their completion. */
  function Linearized(initial: ImpersonationState, past: seq<Action>): seq<AtomicOp> {
    if past == [] then []
    else var n := |past| - 1;
         Linearized(initial, past[..n]) + Completes(initial, past[..n], past[n])
  }

  /** Where a thread stands is where its call says. */
  ghost predicate Agrees(pc: Pc, call: Call) {
    match pc
    case Idle => call == NoCall
    case Priced(tx, _) => call == Adding(tx)
    case Numbered(entry) => call == Adding(entry.transaction)
    case Reserved(txs) => call == AddingMany(txs)
    case Filling(txs, _) => call == AddingMany(txs)
    case Popped(_, n) => call == Taking(n)
    case Inspecting(_, n, state, _) => call == TakingWith(n, state)
  }

  ghost predicate Tracks(initial: ImpersonationState, past: seq<Action>, s: State) {
    && s.impersonation == Current(initial, past) && s.log == Linearized(initial, past)
    && forall t: ThreadId :: Agrees(At(s, t), Called(initial, past, t))
  }

  lemma {:induction false} ThreadTracked(
    initial: ImpersonationState, past: seq<Action>, s: State, a: Action, t: ThreadId)
    requires Tracks(initial, past, s) && Enabled(s, a)
    ensures Agrees(At(Next(s, a), t), Called(initial, past + [a], t))
  {
    assert (past + [a])[..|past|] == past;
    assert Agrees(At(s, t), Called(initial, past, t));
  }

  lemma {:induction false} LogTracked(initial: ImpersonationState, past: seq<Action>, s: State, a: Action)
    requires Tracks(initial, past, s) && Enabled(s, a)
    ensures Next(s, a).log == s.log + Completes(initial, past, a)
  {
    match a
    case InsertOne(t) => assert Agrees(At(s, t), Called(initial, past, t));
    case FinishAdd(t) => assert Agrees(At(s, t), Called(initial, past, t));
    case FinishTake(t) => assert Agrees(At(s, t), Called(initial, past, t));
    case _ => assert s.log + [] == s.log;
  }

  lemma {:induction false} ActionTracked(initial: ImpersonationState, past: seq<Action>, s: State, a: Action)
    requires Tracks(initial, past, s) && Enabled(s, a)
    ensures Tracks(initial, past + [a], Next(s, a))
  {
    assert (past + [a])[..|past|] == past;
    LogTracked(initial, past, s, a);
    forall t: ThreadId
      ensures Agrees(At(Next(s, a), t), Called(initial, past + [a], t))
    {
      ThreadTracked(initial, past, s, a, t);
    }
  }

  lemma {:induction false} RunTracked(
    initial: ImpersonationState, past: seq<Action>, s: State, actions: seq<Action>)
    requires Tracks(initial, past, s) && IsRun(s, actions)
    ensures Tracks(initial, past + actions, After(s, actions))
    decreases |actions|
  {
    if actions == [] {
      assert past + actions == past;
    } else {
      ActionTracked(initial, past, s, actions[0]);
      RunTracked(initial, past + [actions[0]], Next(s, actions[0]), actions[1..]);
      assert past + [actions[0]] + actions[1..] == past + actions;
    }
  }

  /**
    The pool is linearizable: in every interleaving of any length, performing the calls the threads made, with
    their own arguments and the impersonation state current when they read it, one after the other in the
    order of completion, gives the same batches, the same removals, the same answers of every drop and, when
    no operation is under way in the pool, the same pool.
   */
  lemma {:induction false} PoolIsLinearizable(
    order: TransactionOrder, impersonation: ImpersonationState, actions: seq<Action>)
    requires IsRun(Init(order, impersonation), actions)
    ensures var s := After(Init(order, impersonation), actions);
            var p := Replay(order, Linearized(impersonation, actions));
            && TakenBatches(s.batches) == p.batches && s.removed == p.removed && s.drops == p.drops
            && (s.poolLock.None? ==> s.inner == p.inner)
  {
    LocksRefineAtomicPool(order, impersonation, actions);
    RunTracked(impersonation, [], Init(order, impersonation), actions);
    assert [] + actions == actions;
  }
}
