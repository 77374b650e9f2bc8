/**
  The pool under concurrency (crates/core/src/node/pool.rs): threads interleave between lock
  acquisitions. A run is any sequence of enabled actions.
 */
module PoolLocks {
  import opened Wrappers
  import opened TransactionPool
  import PoolBatching

  type ThreadId = nat

  /** Where a thread stands inside a pool operation, and which locks it holds there. */
  datatype Pc =
    | Idle
    | Priced(tx: Transaction, priority: nat)                    // add_tx: priority known, no lock held
    | Numbered(entry: PoolTransaction)                          // add_tx: number lock held
    | Reserved(txs: seq<Transaction>)                           // add_txs: number lock held
    | Filling(txs: seq<Transaction>, done: seq<PoolTransaction>) // add_txs: number and pool locks held
    | Popped(pool: seq<PoolTransaction>, n: nat)                // take_uniform: pool lock held, head popped
    | Inspecting(pool: seq<PoolTransaction>, n: nat, state: ImpersonationState, k: nat)
      // take_uniform: pool lock and impersonation read lock held, `k` transactions popped

  /** A finished take: the pool it started from, its limit, the snapshot it saw, what it took. */
  datatype Batch = Batch(pool: seq<PoolTransaction>, n: nat, state: ImpersonationState, txs: seq<PoolTransaction>)

  /** A finished `add_txs`: what was submitted and the entries it became. */
  datatype Bulk = Bulk(txs: seq<Transaction>, entries: seq<PoolTransaction>)

  datatype State = State(
    inner: seq<PoolTransaction>, counter: nat, order: TransactionOrder, impersonation: ImpersonationState,
    pcs: map<ThreadId, Pc>, numberLock: Option<ThreadId>, poolLock: Option<ThreadId>,
    // what has happened so far
    issued: nat, added: seq<PoolTransaction>, taken: seq<PoolTransaction>, removed: seq<PoolTransaction>,
    batches: seq<Batch>, bulks: seq<Bulk>, drops: seq<seq<Transaction>>, log: seq<AtomicOp>)

  /** A completed operation, as if it had happened in one step. */
  datatype AtomicOp =
    | AddOne(tx: Transaction)
    | AddMany(txs: seq<Transaction>)
    | TakeUpTo(n: nat, state: ImpersonationState)
    | DropAll(f: PoolTransaction -> bool)
    | ClearAll

  function Init(order: TransactionOrder, impersonation: ImpersonationState): State {
    State([], 0, order, impersonation, map[], None, None, 0, [], [], [], [], [], [], [])
  }

  function At(s: State, t: ThreadId): Pc { if t in s.pcs then s.pcs[t] else Idle }

  datatype Action =
    | StartAdd(t: ThreadId, tx: Transaction)
    | TakeNumber(t: ThreadId)
    | InsertOne(t: ThreadId)
    | StartAddMany(t: ThreadId, txs: seq<Transaction>)
    | EnterPool(t: ThreadId)
    | InsertNext(t: ThreadId)
    | FinishAdd(t: ThreadId)
    | StartTake(t: ThreadId, n: nat)
    | Inspect(t: ThreadId)
    | TakeNext(t: ThreadId)
    | FinishTake(t: ThreadId)
    | DropMatching(f: PoolTransaction -> bool)
    | ClearPool
    | SetImpersonation(state: ImpersonationState)

  /** The loop condition of `take_uniform` at a thread that is inspecting. */
  predicate TakesMore(s: State, pc: Pc)
    requires pc.Inspecting? && pc.pool != []
  {
    && pc.k < pc.n && s.inner != []
    && PoolBatching.Status(s.inner[0], pc.state) == PoolBatching.Status(pc.pool[0], pc.state)
  }

  predicate Enabled(s: State, a: Action) {
    match a
    case StartAdd(t, _) => At(s, t).Idle?
    case TakeNumber(t) => At(s, t).Priced? && s.numberLock.None?
    case InsertOne(t) => At(s, t).Numbered? && s.poolLock.None?
    case StartAddMany(t, _) => At(s, t).Idle? && s.numberLock.None?
    case EnterPool(t) => At(s, t).Reserved? && s.poolLock.None?
    case InsertNext(t) => At(s, t).Filling? && |At(s, t).done| < |At(s, t).txs|
    case FinishAdd(t) => At(s, t).Filling? && |At(s, t).done| >= |At(s, t).txs|
    case StartTake(t, n) => At(s, t).Idle? && s.poolLock.None? && n > 0 && s.inner != []
    case Inspect(t) => At(s, t).Popped?
    case TakeNext(t) => At(s, t).Inspecting? && At(s, t).pool != [] && TakesMore(s, At(s, t))
    case FinishTake(t) => At(s, t).Inspecting? && At(s, t).pool != [] && !TakesMore(s, At(s, t))
    case DropMatching(_) => s.poolLock.None?
    case ClearPool => s.poolLock.None?
    case SetImpersonation(_) => forall t :: t in s.pcs ==> !s.pcs[t].Inspecting?
  }

  function Goto(s: State, t: ThreadId, pc: Pc): State { s.(pcs := s.pcs[t := pc]) }

  function Next(s: State, a: Action): State
    requires Enabled(s, a)
  {
    match a
    case StartAdd(t, tx) => Goto(s, t, Priced(tx, Priority(s.order, tx)))
    case TakeNumber(t) =>
      var number := (s.counter + 1) % U64;
      Goto(s, t, Numbered(PoolTransaction(At(s, t).tx, number, At(s, t).priority)))
      .(counter := number, issued := s.issued + 1, numberLock := Some(t))
    case InsertOne(t) =>
      var entry := At(s, t).entry;
      Goto(s, t, Idle).(inner := Insert(s.inner, entry), added := s.added + [entry], numberLock := None,
                        log := s.log + [AddOne(entry.transaction)])
    case StartAddMany(t, txs) => Goto(s, t, Reserved(txs)).(numberLock := Some(t))
    case EnterPool(t) => Goto(s, t, Filling(At(s, t).txs, [])).(poolLock := Some(t))
    case InsertNext(t) =>
      var Filling(txs, done) := At(s, t);
      var number := (s.counter + 1) % U64;
      var entry := PoolTransaction(txs[|done|], number, Priority(s.order, txs[|done|]));
      Goto(s, t, Filling(txs, done + [entry]))
      .(counter := number, issued := s.issued + 1, inner := Insert(s.inner, entry), added := s.added + [entry])
    case FinishAdd(t) =>
      Goto(s, t, Idle).(numberLock := None, poolLock := None, bulks := s.bulks + [Bulk(At(s, t).txs, At(s, t).done)],
                        log := s.log + [AddMany(At(s, t).txs)])
    case StartTake(t, n) =>
      Goto(s, t, Popped(s.inner, n)).(inner := s.inner[1..], taken := s.taken + [s.inner[0]], poolLock := Some(t))
    case Inspect(t) => Goto(s, t, Inspecting(At(s, t).pool, At(s, t).n, s.impersonation, 1))
    case TakeNext(t) =>
      Goto(s, t, At(s, t).(k := At(s, t).k + 1)).(inner := s.inner[1..], taken := s.taken + [s.inner[0]])
    case FinishTake(t) =>
      var Inspecting(pool, n, state, k) := At(s, t);
      var txs := if k <= |pool| then pool[..k] else [];
      Goto(s, t, Idle).(poolLock := None, batches := s.batches + [Batch(pool, n, state, txs)],
                        log := s.log + [TakeUpTo(n, state)])
    case DropMatching(f) =>
      s.(inner := Filter(s.inner, x => !f(x)), removed := s.removed + Filter(s.inner, f),
         drops := s.drops + [Dropped(s.inner, f)], log := s.log + [DropAll(f)])
    case ClearPool => s.(inner := [], removed := s.removed + s.inner, log := s.log + [ClearAll])
    case SetImpersonation(state) => s.(impersonation := state)
  }

  // ---------- Invariants ----------

  predicate HoldsNumber(pc: Pc) { pc.Numbered? || pc.Reserved? || pc.Filling? }

  predicate HoldsPool(pc: Pc) { pc.Filling? || pc.Popped? || pc.Inspecting? }

  /** The locks are held by exactly the threads whose position says so. */
  ghost predicate LocksOk(s: State) {
    && (forall t: ThreadId :: HoldsNumber(At(s, t)) <==> s.numberLock == Some(t))
    && (forall t: ThreadId :: HoldsPool(At(s, t)) <==> s.poolLock == Some(t))
  }

  ghost predicate Increasing(entries: seq<PoolTransaction>) {
    forall i, j :: 0 <= i < j < |entries| ==> entries[i].submissionNumber < entries[j].submissionNumber
  }

  /** Entries on their way carry the right priority and the number last handed out. */
  ghost predicate EntriesOk(s: State) {
    && s.counter == s.issued % U64
    && (forall t: ThreadId :: At(s, t).Priced? ==> At(s, t).priority == Priority(s.order, At(s, t).tx))
    && (forall t: ThreadId :: At(s, t).Numbered? ==>
          && At(s, t).entry.submissionNumber == s.counter
          && At(s, t).entry.priority == Priority(s.order, At(s, t).entry.transaction))
  }

  /** Entries are added in the order of their numbers; a number handed out is ahead of them all. */
  ghost predicate NumbersOk(s: State) {
    && s.counter == s.issued
    && Increasing(s.added)
    && (forall x :: x in s.added ==> x.submissionNumber <= s.counter && x.priority == Priority(s.order, x.transaction))
    && (forall t: ThreadId :: At(s, t).Numbered? ==> forall x :: x in s.added ==> x.submissionNumber < s.counter)
  }

  /** Nothing is lost: what was added is taken, removed or still in the pool. */
  ghost predicate Conserved(
    added: seq<PoolTransaction>, taken: seq<PoolTransaction>, removed: seq<PoolTransaction>,
    inner: seq<PoolTransaction>)
  {
    multiset(added) == multiset(taken) + multiset(removed) + multiset(inner)
  }

  /** Among equals in priority, what was taken was submitted before what is left. */
  ghost predicate Ahead(taken: seq<PoolTransaction>, inner: seq<PoolTransaction>) {
    forall x, y :: x in taken && y in inner && x.priority == y.priority ==> x.submissionNumber < y.submissionNumber
  }

  /** Equal priorities leave the pool in submission order. */
  ghost predicate InOrder(taken: seq<PoolTransaction>) {
    forall i, j :: 0 <= i < j < |taken| && taken[i].priority == taken[j].priority ==>
      taken[i].submissionNumber < taken[j].submissionNumber
  }

  /** Without removals a Fifo pool is a queue. */
  ghost predicate QueueOk(
    order: TransactionOrder, added: seq<PoolTransaction>, taken: seq<PoolTransaction>,
    removed: seq<PoolTransaction>, inner: seq<PoolTransaction>)
  {
    order.Fifo? && removed == [] ==> taken + inner == added
  }

  ghost predicate FlowOk(s: State) {
    && Conserved(s.added, s.taken, s.removed, s.inner)
    && Sorted(s.inner) && Ahead(s.taken, s.inner) && InOrder(s.taken)
    && QueueOk(s.order, s.added, s.taken, s.removed, s.inner)
  }

  /** What a take in progress has popped so far. */
  function InFlight(pc: Pc): seq<PoolTransaction> {
    match pc
    case Popped(pool, _) => if pool == [] then [] else pool[..1]
    case Inspecting(pool, _, _, k) => if k <= |pool| then pool[..k] else []
    case _ => []
  }

  ghost predicate TakeOk(s: State, pc: Pc) {
    match pc
    case Popped(pool, n) => n > 0 && pool != [] && s.inner == pool[1..] && Sorted(pool)
    case Inspecting(pool, n, state, k) =>
      && 0 < k <= n && k <= |pool| && s.inner == pool[k..] && state == s.impersonation && Sorted(pool)
      && forall i :: 0 <= i < k ==> PoolBatching.Status(pool[i], state) == PoolBatching.Status(pool[0], state)
    case _ => true
  }

  function Batched(batches: seq<Batch>): seq<PoolTransaction> {
    if batches == [] then [] else Batched(batches[..|batches| - 1]) + batches[|batches| - 1].txs
  }

  ghost predicate BatchOk(b: Batch) {
    LongestUniformPrefix(b.pool, b.state, b.n, |b.txs|) && b.txs != [] && b.txs == b.pool[..|b.txs|] && Sorted(b.pool)
  }

  /** Takes in progress and finished takes cut the pool they started from; together they are all takes. */
  ghost predicate TakesOk(s: State) {
    && (forall t: ThreadId :: TakeOk(s, At(s, t)))
    && (forall i :: 0 <= i < |s.batches| ==> BatchOk(s.batches[i]))
    && TakenOk(s)
  }

  ghost predicate TakenOk(s: State) {
    s.taken == Batched(s.batches) + if s.poolLock.Some? then InFlight(At(s, s.poolLock.value)) else []
  }

  /** `entries` are the first of `txs`, numbered consecutively so that the last one has number `last`. */
  ghost predicate Consecutive(txs: seq<Transaction>, entries: seq<PoolTransaction>, last: nat) {
    && |entries| <= |txs| && |entries| <= last
    && forall i :: 0 <= i < |entries| ==>
         entries[i].transaction == txs[i] && entries[i].submissionNumber == last - |entries| + 1 + i
  }

  ghost predicate BulkOk(b: Bulk, counter: nat) {
    |b.entries| == |b.txs| && exists last: nat :: last <= counter && Consecutive(b.txs, b.entries, last)
  }

  ghost predicate BulksOk(s: State) {
    && (forall t: ThreadId :: At(s, t).Filling? ==> Consecutive(At(s, t).txs, At(s, t).done, s.counter))
    && (forall i :: 0 <= i < |s.bulks| ==> BulkOk(s.bulks[i], s.counter))
  }

  // What the completed operations alone would have done, one after the other.

  datatype Atomic = Atomic(inner: seq<PoolTransaction>, issued: nat, batches: seq<seq<PoolTransaction>>,
                           removed: seq<PoolTransaction>, drops: seq<seq<Transaction>>)

  function Perform(order: TransactionOrder, p: Atomic, op: AtomicOp): Atomic {
    match op
    case AddOne(tx) =>
      p.(inner := Insert(p.inner, PoolTransaction(tx, (p.issued + 1) % U64, Priority(order, tx))),
         issued := p.issued + 1)
    case AddMany(txs) => p.(inner := InsertAll(p.inner, order, p.issued, txs), issued := p.issued + |txs|)
    case TakeUpTo(n, state) =>
      var k := PoolBatching.RunLength(p.inner, state, n);
      p.(inner := p.inner[k..], batches := p.batches + [p.inner[..k]])
    case DropAll(f) =>
      p.(inner := Filter(p.inner, x => !f(x)), removed := p.removed + Filter(p.inner, f),
         drops := p.drops + [Dropped(p.inner, f)])
    case ClearAll => p.(inner := [], removed := p.removed + p.inner)
  }

  function Replay(order: TransactionOrder, log: seq<AtomicOp>): Atomic {
    if log == [] then Atomic([], 0, [], [], [])
    else Perform(order, Replay(order, log[..|log| - 1]), log[|log| - 1])
  }

  /** Numbers handed out to an addition that is not complete yet. */
  function Unlogged(s: State): nat {
    if s.numberLock.None? then 0
    else match At(s, s.numberLock.value)
         case Numbered(_) => 1
         case Filling(_, done) => |done|
         case _ => 0
  }

  /** The pool against the atomic one: equal, or ahead of it by what the lock holder has done so far. */
  ghost predicate PoolMatches(s: State, p: Atomic) {
    if s.poolLock.None? then s.inner == p.inner
    else match At(s, s.poolLock.value)
         case Filling(txs, done) => |done| <= |txs| && s.inner == InsertAll(p.inner, s.order, p.issued, txs[..|done|])
         case Popped(pool, _) => p.inner == pool
         case Inspecting(pool, _, _, _) => p.inner == pool
         case _ => false
  }

  function TakenBatches(batches: seq<Batch>): (r: seq<seq<PoolTransaction>>)
    ensures |r| == |batches|
  {
    seq(|batches|, i requires 0 <= i < |batches| => batches[i].txs)
  }

  ghost predicate Refines(s: State) {
    var p := Replay(s.order, s.log);
    && p.issued + Unlogged(s) == s.issued && PoolMatches(s, p)
    && p.batches == TakenBatches(s.batches) && p.removed == s.removed && p.drops == s.drops
  }

  /** What holds in every run, however long. */
  ghost predicate Always(s: State) { LocksOk(s) && EntriesOk(s) && Sorted(s.inner) && TakesOk(s) && Refines(s) }

  /** What holds as long as the 64-bit counter has not wrapped. */
  ghost predicate Good(s: State) { NumbersOk(s) && FlowOk(s) && BulksOk(s) }

  ghost predicate Inv(s: State) { Always(s) && (s.issued < U64 ==> Good(s)) }

  // ---------- Every action keeps the invariants ----------

  lemma {:induction false} LocksKept(s: State, a: Action)
    requires LocksOk(s) && Enabled(s, a)
    ensures LocksOk(Next(s, a))
  {
    var s' := Next(s, a);
    if !a.DropMatching? && !a.ClearPool? && !a.SetImpersonation? {
      assert forall t: ThreadId :: t != a.t ==> At(s', t) == At(s, t);
    }
  }

  lemma {:induction false} EntriesKept(s: State, a: Action)
    requires LocksOk(s) && EntriesOk(s) && Enabled(s, a)
    ensures EntriesOk(Next(s, a))
  {
    var s' := Next(s, a);
    WrapNext(s.issued);
    forall t: ThreadId
      ensures At(s', t).Priced? ==> At(s', t).priority == Priority(s'.order, At(s', t).tx)
      ensures At(s', t).Numbered? ==>
          && At(s', t).entry.submissionNumber == s'.counter
          && At(s', t).entry.priority == Priority(s'.order, At(s', t).entry.transaction)
    {
      assert HoldsNumber(At(s, t)) <==> s.numberLock == Some(t);
      if a.TakeNumber? || a.InsertNext? {
        assert HoldsNumber(At(s, a.t)) <==> s.numberLock == Some(a.t);
      }
    }
  }

  lemma {:induction false} NumbersKept(s: State, a: Action)
    requires LocksOk(s) && EntriesOk(s) && NumbersOk(s) && Enabled(s, a) && Next(s, a).issued < U64
    ensures NumbersOk(Next(s, a))
  {
    var s' := Next(s, a);
    forall t: ThreadId
      ensures At(s', t).Numbered? ==> forall x :: x in s'.added ==> x.submissionNumber < s'.counter
    {
      assert HoldsNumber(At(s, t)) <==> s.numberLock == Some(t);
      if a.TakeNumber? || a.InsertOne? || a.InsertNext? {
        assert HoldsNumber(At(s, a.t)) <==> s.numberLock == Some(a.t);
      }
    }
  }

  lemma {:induction false} ConservedMembers(s: State)
    requires FlowOk(s)
    ensures forall x :: x in s.taken ==> x in s.added
    ensures forall x :: x in s.inner ==> x in s.added
  {
    assert forall x :: x in s.taken ==> x in multiset(s.added);
    assert forall x :: x in s.inner ==> x in multiset(s.added);
  }

  /** Inserting an entry numbered behind all others keeps the flow. */
  lemma {:induction false} InsertKeepsFlow(s: State, s': State, entry: PoolTransaction)
    requires FlowOk(s)
    requires forall x :: x in s.added ==> x.submissionNumber < entry.submissionNumber
    requires forall x :: x in s.added ==> x.priority == Priority(s.order, x.transaction)
    requires entry.priority == Priority(s.order, entry.transaction)
    requires s'.inner == Insert(s.inner, entry) && s'.added == s.added + [entry]
    requires s'.taken == s.taken && s'.removed == s.removed && s'.order == s.order
    ensures FlowOk(s')
  {
    ConservedMembers(s);
    InsertFresh(s.inner, entry);
    ConservedInsert(s.added, s.taken, s.removed, s.inner, s'.inner, entry);
    assert Ahead(s'.taken, s'.inner);
    assert QueueOk(s'.order, s'.added, s'.taken, s'.removed, s'.inner) by {
      if s.order.Fifo? && s.removed == [] {
        InsertLastByNumber(s.inner, entry);
        assert s.taken + (s.inner + [entry]) == s.taken + s.inner + [entry];
      }
    }
  }

  lemma {:induction false} InsertFresh(q: seq<PoolTransaction>, entry: PoolTransaction)
    requires Sorted(q) && forall x :: x in q ==> x.submissionNumber < entry.submissionNumber
    ensures Sorted(Insert(q, entry))
    ensures forall y :: y in Insert(q, entry) ==> y in q || y == entry
    ensures multiset(Insert(q, entry)) == multiset(q) + multiset{entry}
  {
    assert forall i :: 0 <= i < |q| ==> q[i] in q;
    InsertSpec(q, entry);
  }

  lemma {:induction false} InsertLastByNumber(q: seq<PoolTransaction>, entry: PoolTransaction)
    requires forall x :: x in q ==> x.submissionNumber < entry.submissionNumber && x.priority == entry.priority
    ensures Insert(q, entry) == q + [entry]
  {
    assert forall i :: 0 <= i < |q| ==> q[i] in q;
    InsertLast(q, entry);
  }

  lemma {:induction false} ConservedInsert(
    added: seq<PoolTransaction>, taken: seq<PoolTransaction>, removed: seq<PoolTransaction>,
    inner: seq<PoolTransaction>, inner': seq<PoolTransaction>, entry: PoolTransaction)
    requires Conserved(added, taken, removed, inner)
    requires multiset(inner') == multiset(inner) + multiset{entry}
    ensures Conserved(added + [entry], taken, removed, inner')
  {
    assert multiset(added + [entry]) == multiset(added) + multiset{entry};
  }

  lemma {:induction false} ConservedPop(
    added: seq<PoolTransaction>, taken: seq<PoolTransaction>, removed: seq<PoolTransaction>,
    inner: seq<PoolTransaction>)
    requires inner != [] && Conserved(added, taken, removed, inner)
    ensures Conserved(added, taken + [inner[0]], removed, inner[1..])
  {
    assert inner == [inner[0]] + inner[1..];
    assert multiset(inner) == multiset{inner[0]} + multiset(inner[1..]);
    assert multiset(taken + [inner[0]]) == multiset(taken) + multiset{inner[0]};
  }

  lemma {:induction false} AheadPop(taken: seq<PoolTransaction>, inner: seq<PoolTransaction>)
    requires inner != [] && Sorted(inner) && Ahead(taken, inner) && InOrder(taken)
    ensures Ahead(taken + [inner[0]], inner[1..]) && InOrder(taken + [inner[0]])
  {
    var head, rest, taken' := inner[0], inner[1..], taken + [inner[0]];
    assert head in inner;
    assert forall y :: y in rest ==> y in inner && Before(head, y);
    assert forall i :: 0 <= i < |taken| ==> taken[i] in taken && taken'[i] == taken[i];
  }

  lemma {:induction false} PopKeepsFlow(s: State, s': State)
    requires FlowOk(s) && s.inner != []
    requires s'.inner == s.inner[1..] && s'.taken == s.taken + [s.inner[0]]
    requires s'.added == s.added && s'.removed == s.removed && s'.order == s.order
    ensures FlowOk(s')
  {
    ConservedPop(s.added, s.taken, s.removed, s.inner);
    AheadPop(s.taken, s.inner);
    assert s.taken + s.inner == s.taken + [s.inner[0]] + s.inner[1..];
  }

  lemma {:induction false} FilterNone(q: seq<PoolTransaction>, f: PoolTransaction -> bool)
    requires Filter(q, f) == []
    ensures Filter(q, x => !f(x)) == q
  {
    if q != [] {
      FilterNone(q[1..], f);
      assert q == [q[0]] + q[1..];
    }
  }

  lemma {:induction false} DropKeepsFlow(s: State, s': State, f: PoolTransaction -> bool)
    requires FlowOk(s)
    requires s'.inner == Filter(s.inner, x => !f(x)) && s'.removed == s.removed + Filter(s.inner, f)
    requires s'.added == s.added && s'.taken == s.taken && s'.order == s.order
    ensures FlowOk(s')
  {
    FilterSorted(s.inner, x => !f(x));
    FilterMembers(s.inner, x => !f(x));
    FilterSplits(s.inner, f);
    assert multiset(s'.removed) == multiset(s.removed) + multiset(Filter(s.inner, f));
    if Filter(s.inner, f) == [] {
      FilterNone(s.inner, f);
    }
  }

  lemma {:induction false} FlowKept(s: State, a: Action)
    requires LocksOk(s) && EntriesOk(s) && NumbersOk(s) && FlowOk(s) && Enabled(s, a) && Next(s, a).issued < U64
    ensures FlowOk(Next(s, a))
  {
    var s' := Next(s, a);
    match a
    case InsertOne(t) => InsertKeepsFlow(s, s', At(s, t).entry);
    case InsertNext(t) => InsertKeepsFlow(s, s', s'.added[|s.added|]);
    case StartTake(t, n) => PopKeepsFlow(s, s');
    case TakeNext(t) => PopKeepsFlow(s, s');
    case DropMatching(f) => DropKeepsFlow(s, s', f);
    case ClearPool => ClearKeepsFlow(s, s');
    case _ => SameFlow(s, s');
  }

  lemma {:induction false} ClearKeepsFlow(s: State, s': State)
    requires FlowOk(s) && s'.inner == [] && s'.removed == s.removed + s.inner
    requires s'.added == s.added && s'.taken == s.taken && s'.order == s.order
    ensures FlowOk(s')
  {
    assert multiset(s.removed + s.inner) == multiset(s.removed) + multiset(s.inner);
  }

  lemma {:induction false} SameFlow(s: State, s': State)
    requires FlowOk(s) && s'.inner == s.inner && s'.added == s.added && s'.taken == s.taken
    requires s'.removed == s.removed && s'.order == s.order
    ensures FlowOk(s')
  {
  }

  /** An action of thread `t` leaves the other threads where they are. */
  lemma {:induction false} OthersStay(s: State, a: Action, t: ThreadId)
    requires Enabled(s, a)
    requires a.DropMatching? || a.ClearPool? || a.SetImpersonation? || t != a.t
    ensures At(Next(s, a), t) == At(s, t)
  {
  }

  lemma {:induction false} ThreadTakeKept(s: State, a: Action, t: ThreadId)
    requires LocksOk(s) && TakesOk(s) && Sorted(s.inner) && Enabled(s, a)
    ensures TakeOk(Next(s, a), At(Next(s, a), t))
  {
    assert TakeOk(s, At(s, t)) && (HoldsPool(At(s, t)) <==> s.poolLock == Some(t));
    if a.DropMatching? || a.ClearPool? || a.SetImpersonation? {
      OthersStay(s, a, t);
    } else if t != a.t {
      OthersStay(s, a, t);
      assert TakeOk(s, At(s, a.t)) && (HoldsPool(At(s, a.t)) <==> s.poolLock == Some(a.t));
    }
  }

  lemma {:induction false} TakesKept(s: State, a: Action)
    requires LocksOk(s) && TakesOk(s) && Sorted(s.inner) && Enabled(s, a)
    ensures TakesOk(Next(s, a))
  {
    var s' := Next(s, a);
    forall t: ThreadId
      ensures TakeOk(s', At(s', t))
    {
      ThreadTakeKept(s, a, t);
    }
    BatchesKept(s, a);
    TakenKept(s, a);
  }

  lemma {:induction false} BatchesKept(s: State, a: Action)
    requires TakesOk(s) && Enabled(s, a)
    ensures forall i :: 0 <= i < |Next(s, a).batches| ==> BatchOk(Next(s, a).batches[i])
  {
    if a.FinishTake? {
      var Inspecting(pool, n, state, k) := At(s, a.t);
      assert TakeOk(s, At(s, a.t));
      assert Uniform(pool[..k], state);
      PrefixEnds(pool, state, n, k);
    }
  }

  lemma {:induction false} TakenKept(s: State, a: Action)
    requires LocksOk(s) && TakesOk(s) && Enabled(s, a)
    ensures TakenOk(Next(s, a))
  {
    if a.StartTake? || a.Inspect? || a.TakeNext? || a.FinishTake? {
      TakenByTake(s, a);
    } else {
      TakenByOthers(s, a);
    }
  }

  lemma {:induction false} TakenByTake(s: State, a: Action)
    requires LocksOk(s) && TakesOk(s) && Enabled(s, a)
    requires a.StartTake? || a.Inspect? || a.TakeNext? || a.FinishTake?
    ensures TakenOk(Next(s, a))
  {
    var pc := At(s, a.t);
    assert TakeOk(s, pc) && (HoldsPool(pc) <==> s.poolLock == Some(a.t));
    if a.FinishTake? {
      TakenByFinish(s, a.t);
    } else if a.TakeNext? {
      TakenByNext(s, a.t);
    }
  }

  lemma {:induction false} TakenByFinish(s: State, t: ThreadId)
    requires TakenOk(s) && Enabled(s, FinishTake(t)) && s.poolLock == Some(t)
    ensures TakenOk(Next(s, FinishTake(t)))
  {
    var s' := Next(s, FinishTake(t));
    assert s'.batches[..|s.batches|] == s.batches;
    assert Batched(s'.batches) == Batched(s.batches) + InFlight(At(s, t));
  }

  lemma {:induction false} TakenByNext(s: State, t: ThreadId)
    requires TakenOk(s) && Enabled(s, TakeNext(t)) && s.poolLock == Some(t) && TakeOk(s, At(s, t))
    ensures TakenOk(Next(s, TakeNext(t)))
  {
    var pc := At(s, t);
    assert pc.pool[..pc.k] + [s.inner[0]] == pc.pool[..pc.k + 1];
  }

  lemma {:induction false} TakenByOthers(s: State, a: Action)
    requires LocksOk(s) && TakesOk(s) && Enabled(s, a)
    requires !a.StartTake? && !a.Inspect? && !a.TakeNext? && !a.FinishTake?
    ensures TakenOk(Next(s, a))
  {
    if s.poolLock.Some? && !a.DropMatching? && !a.ClearPool? && !a.SetImpersonation? {
      assert HoldsPool(At(s, s.poolLock.value));
      assert HoldsPool(At(s, a.t)) <==> s.poolLock == Some(a.t);
    }
  }

  lemma {:induction false} BulksKept(s: State, a: Action)
    requires LocksOk(s) && NumbersOk(s) && BulksOk(s) && Enabled(s, a) && Next(s, a).issued < U64
    ensures BulksOk(Next(s, a))
  {
    var s' := Next(s, a);
    forall t: ThreadId | At(s', t).Filling?
      ensures Consecutive(At(s', t).txs, At(s', t).done, s'.counter)
    {
      assert HoldsNumber(At(s, t)) <==> s.numberLock == Some(t);
      if a.TakeNumber? || a.InsertNext? {
        assert HoldsNumber(At(s, a.t)) <==> s.numberLock == Some(a.t);
      }
    }
    forall i | 0 <= i < |s.bulks|
      ensures BulkOk(s.bulks[i], s'.counter)
    {
      assert BulkOk(s.bulks[i], s.counter);
      var last: nat :| last <= s.counter && Consecutive(s.bulks[i].txs, s.bulks[i].entries, last);
      assert last <= s'.counter;
    }
    if a.FinishAdd? {
      assert Consecutive(At(s, a.t).txs, At(s, a.t).done, s.counter);
    }
  }

  lemma {:induction false} SortedKept(s: State, a: Action)
    requires Sorted(s.inner) && Enabled(s, a)
    ensures Sorted(Next(s, a).inner)
  {
    match a
    case InsertOne(t) => InsertSorted(s.inner, At(s, t).entry);
    case InsertNext(t) => InsertSorted(s.inner, Next(s, a).added[|s.added|]);
    case DropMatching(f) => FilterSorted(s.inner, x => !f(x));
    case _ =>
  }

  lemma {:induction false} ReplayPush(order: TransactionOrder, log: seq<AtomicOp>, op: AtomicOp)
    ensures Replay(order, log + [op]) == Perform(order, Replay(order, log), op)
  {
    assert (log + [op])[..|log|] == log;
  }

  /** Actions that complete no operation and touch neither counter nor pool leave the match alone. */
  lemma {:induction false} QuietActionRefines(s: State, a: Action)
    requires LocksOk(s) && Refines(s) && Enabled(s, a)
    requires a.StartAdd? || a.StartAddMany? || a.SetImpersonation? || a.Inspect? || a.TakeNext? || a.TakeNumber?
    ensures Refines(Next(s, a))
  {
    var s' := Next(s, a);
    if s.poolLock.Some? {
      assert HoldsPool(At(s, s.poolLock.value));
    }
    if s.numberLock.Some? {
      assert HoldsNumber(At(s, s.numberLock.value));
    }
    assert s'.log == s.log && s'.batches == s.batches;
  }

  lemma {:induction false} AddOneRefines(s: State, t: ThreadId)
    requires LocksOk(s) && EntriesOk(s) && Refines(s) && Enabled(s, InsertOne(t))
    ensures Refines(Next(s, InsertOne(t)))
  {
    var p := Replay(s.order, s.log);
    assert HoldsNumber(At(s, t)) && s.numberLock == Some(t);
    assert p.issued + 1 == s.issued;
    ReplayPush(s.order, s.log, AddOne(At(s, t).entry.transaction));
  }

  lemma {:induction false} EnterRefines(s: State, t: ThreadId)
    requires LocksOk(s) && Refines(s) && Enabled(s, EnterPool(t))
    ensures Refines(Next(s, EnterPool(t)))
  {
    assert HoldsNumber(At(s, t)) && s.numberLock == Some(t);
    assert At(s, t).txs[..0] == [];
  }

  lemma {:induction false} InsertNextRefines(s: State, t: ThreadId)
    requires LocksOk(s) && EntriesOk(s) && Refines(s) && Enabled(s, InsertNext(t))
    ensures Refines(Next(s, InsertNext(t)))
  {
    assert HoldsNumber(At(s, t)) && HoldsPool(At(s, t));
    FillerInsertRefines(s, t);
  }

  /** Inserting the next of `txs` under the next number continues inserting them all. */
  lemma {:induction false} FillOneMore(
    p: Atomic, order: TransactionOrder, counter: nat, txs: seq<Transaction>, d: nat, inner: seq<PoolTransaction>)
    requires d < |txs| && counter == (p.issued + d) % U64
    requires inner == InsertAll(p.inner, order, p.issued, txs[..d])
    ensures Insert(inner, PoolTransaction(txs[d], (counter + 1) % U64, Priority(order, txs[d])))
         == InsertAll(p.inner, order, p.issued, txs[..d + 1])
  {
    InsertAllStep(p.inner, order, p.issued, txs, d);
  }

  /** What the insertion leaves as it was. */
  lemma {:induction false} FillerInserts(s: State, t: ThreadId)
    requires Enabled(s, InsertNext(t))
    ensures var s', Filling(txs, done) := Next(s, InsertNext(t)), At(s, t);
            var entry := PoolTransaction(txs[|done|], (s.counter + 1) % U64, Priority(s.order, txs[|done|]));
            && At(s', t) == Filling(txs, done + [entry]) && s'.inner == Insert(s.inner, entry)
            && s'.issued == s.issued + 1 && s'.log == s.log && s'.order == s.order
            && s'.poolLock == s.poolLock && s'.numberLock == s.numberLock
            && s'.batches == s.batches && s'.removed == s.removed && s'.drops == s.drops
  {
  }

  /** The same from the holder of both locks alone. */
  lemma {:induction false} FillerInsertRefines(s: State, t: ThreadId)
    requires s.numberLock == Some(t) && s.poolLock == Some(t) && s.counter == s.issued % U64
    requires Refines(s) && Enabled(s, InsertNext(t))
    ensures Refines(Next(s, InsertNext(t)))
  {
    var p := Replay(s.order, s.log);
    var Filling(txs, done) := At(s, t);
    FillerInserts(s, t);
    FillOneMore(p, s.order, s.counter, txs, |done|, s.inner);
  }

  lemma {:induction false} FinishAddRefines(s: State, t: ThreadId)
    requires LocksOk(s) && Refines(s) && Enabled(s, FinishAdd(t))
    ensures Refines(Next(s, FinishAdd(t)))
  {
    assert HoldsNumber(At(s, t)) && s.numberLock == Some(t);
    assert HoldsPool(At(s, t)) && s.poolLock == Some(t);
    var Filling(txs, done) := At(s, t);
    assert txs[..|done|] == txs;
    ReplayPush(s.order, s.log, AddMany(txs));
  }

  lemma {:induction false} StartTakeRefines(s: State, a: Action)
    requires LocksOk(s) && Refines(s) && Enabled(s, a) && a.StartTake?
    ensures Refines(Next(s, a))
  {
    if s.numberLock.Some? {
      assert HoldsNumber(At(s, s.numberLock.value));
    }
  }

  lemma {:induction false} FinishTakeRefines(s: State, a: Action)
    requires LocksOk(s) && TakesOk(s) && Refines(s) && Enabled(s, a) && a.FinishTake?
    ensures Refines(Next(s, a))
  {
    assert TakeOk(s, At(s, a.t)) && HoldsPool(At(s, a.t)) && s.poolLock == Some(a.t);
    BatchesKept(s, a);
    assert BatchOk(Next(s, a).batches[|s.batches|]);
    FinishLeavesNumbers(s, a.t);
    TakerFinishRefines(s, a.t);
  }

  /** Finishing a take concerns no thread that holds the number lock. */
  lemma {:induction false} FinishLeavesNumbers(s: State, t: ThreadId)
    requires LocksOk(s) && Enabled(s, FinishTake(t))
    ensures Unlogged(Next(s, FinishTake(t))) == Unlogged(s)
  {
    if s.numberLock.Some? {
      assert HoldsNumber(At(s, s.numberLock.value));
    }
  }

  /** The same from the holder of the pool lock alone. */
  lemma {:induction false} TakerFinishRefines(s: State, t: ThreadId)
    requires s.poolLock == Some(t) && Enabled(s, FinishTake(t)) && TakeOk(s, At(s, t)) && Refines(s)
    requires BatchOk(Next(s, FinishTake(t)).batches[|s.batches|])
    requires Unlogged(Next(s, FinishTake(t))) == Unlogged(s)
    ensures Refines(Next(s, FinishTake(t)))
  {
    var s' := Next(s, FinishTake(t));
    var Inspecting(pool, n, state, k) := At(s, t);
    PoolBatching.RunIsLongest(pool, state, n, k);
    ReplayPush(s.order, s.log, TakeUpTo(n, state));
    assert TakenBatches(s'.batches) == TakenBatches(s.batches) + [pool[..k]];
  }

  lemma {:induction false} RemovalRefines(s: State, a: Action)
    requires LocksOk(s) && Refines(s) && Enabled(s, a) && (a.DropMatching? || a.ClearPool?)
    ensures Refines(Next(s, a))
  {
    ReplayPush(s.order, s.log, if a.DropMatching? then DropAll(a.f) else ClearAll);
  }

  lemma {:induction false} RefinementKept(s: State, a: Action)
    requires LocksOk(s) && EntriesOk(s) && TakesOk(s) && Refines(s) && Enabled(s, a)
    ensures Refines(Next(s, a))
  {
    match a
    case InsertOne(t) => AddOneRefines(s, t);
    case EnterPool(t) => EnterRefines(s, t);
    case InsertNext(t) => InsertNextRefines(s, t);
    case FinishAdd(t) => FinishAddRefines(s, t);
    case StartTake(_, _) => StartTakeRefines(s, a);
    case FinishTake(_) => FinishTakeRefines(s, a);
    case DropMatching(_) => RemovalRefines(s, a);
    case ClearPool => RemovalRefines(s, a);
    case _ => QuietActionRefines(s, a);
  }

  lemma {:induction false} AlwaysKept(s: State, a: Action)
    requires Always(s) && Enabled(s, a)
    ensures Always(Next(s, a))
  {
    LocksKept(s, a);
    EntriesKept(s, a);
    SortedKept(s, a);
    TakesKept(s, a);
    RefinementKept(s, a);
  }

  lemma {:induction false} InvKept(s: State, a: Action)
    requires Inv(s) && Enabled(s, a)
    ensures Inv(Next(s, a))
  {
    AlwaysKept(s, a);
    if Next(s, a).issued < U64 {
      NumbersKept(s, a);
      FlowKept(s, a);
      BulksKept(s, a);
    }
  }

  // ---------- Runs ----------

  ghost predicate IsRun(s: State, actions: seq<Action>)
    decreases |actions|
  {
    actions == [] || (Enabled(s, actions[0]) && IsRun(Next(s, actions[0]), actions[1..]))
  }

  ghost function After(s: State, actions: seq<Action>): State
    requires IsRun(s, actions)
    decreases |actions|
  {
    if actions == [] then s else After(Next(s, actions[0]), actions[1..])
  }

  lemma {:induction false} RunsKeepInv(s: State, actions: seq<Action>)
    requires Inv(s) && IsRun(s, actions)
    ensures Inv(After(s, actions))
    decreases |actions|
  {
    if actions != [] {
      InvKept(s, actions[0]);
      RunsKeepInv(Next(s, actions[0]), actions[1..]);
    }
  }

  /** After any run from an empty pool all invariants hold, the number-based ones short of 2^64 submissions. */
  lemma {:induction false} ReachableIsGood(
    order: TransactionOrder, impersonation: ImpersonationState, actions: seq<Action>)
    requires IsRun(Init(order, impersonation), actions)
    ensures var s := After(Init(order, impersonation), actions); Always(s) && (s.issued < U64 ==> Good(s))
  {
    InitIsGood(order, impersonation);
    RunsKeepInv(Init(order, impersonation), actions);
  }

  lemma {:induction false} InitIsGood(order: TransactionOrder, impersonation: ImpersonationState)
    ensures Inv(Init(order, impersonation))
  {
    assert Replay(order, []) == Atomic([], 0, [], [], []);
  }

  /**
    The lock-level pool refines the atomic one: after every run, of any length, the batches taken, the
    transactions removed and what each drop returned are exactly what the completed operations yield when
    performed one after the other, and unless an operation is under way in the pool so are its contents.
   */
  lemma {:induction false} LocksRefineAtomicPool(
    order: TransactionOrder, impersonation: ImpersonationState, actions: seq<Action>)
    requires IsRun(Init(order, impersonation), actions)
    ensures var s := After(Init(order, impersonation), actions);
            var p := Replay(order, s.log);
            && TakenBatches(s.batches) == p.batches && s.removed == p.removed && s.drops == p.drops
            && (s.poolLock.None? ==> s.inner == p.inner)
  {
    ReachableIsGood(order, impersonation, actions);
    OrderIsFixed(Init(order, impersonation), actions);
  }

  /**
    Over every interleaving, equal priorities are taken in submission order; under Fifo all takes
    come out in strictly increasing submission number.
   */
  lemma {:induction false} TakesFollowSubmission(
    order: TransactionOrder, impersonation: ImpersonationState, actions: seq<Action>)
    requires IsRun(Init(order, impersonation), actions)
    requires After(Init(order, impersonation), actions).issued < U64
    ensures var s := After(Init(order, impersonation), actions);
            InOrder(s.taken) && (order.Fifo? ==> Increasing(s.taken))
  {
    ReachableIsGood(order, impersonation, actions);
    var s := After(Init(order, impersonation), actions);
    OrderIsFixed(Init(order, impersonation), actions);
    ConservedMembers(s);
    assert order.Fifo? ==> forall i :: 0 <= i < |s.taken| ==> s.taken[i] in s.taken && s.taken[i].priority == 0;
  }

  lemma {:induction false} OrderIsFixed(s: State, actions: seq<Action>)
    requires IsRun(s, actions)
    ensures After(s, actions).order == s.order
    decreases |actions|
  {
    if actions != [] {
      OrderIsFixed(Next(s, actions[0]), actions[1..]);
    }
  }

  /** Under Fifo without drops or clears the pool is a queue: what was taken is a prefix of what was added. */
  lemma {:induction false} FifoIsAQueue(impersonation: ImpersonationState, actions: seq<Action>)
    requires IsRun(Init(Fifo, impersonation), actions)
    requires After(Init(Fifo, impersonation), actions).issued < U64
    requires After(Init(Fifo, impersonation), actions).removed == []
    ensures var s := After(Init(Fifo, impersonation), actions);
            s.taken <= s.added && s.inner == s.added[|s.taken|..]
  {
    ReachableIsGood(Fifo, impersonation, actions);
    OrderIsFixed(Init(Fifo, impersonation), actions);
  }

  /**
    Every finished batch is the longest uniform prefix, for one impersonation snapshot, of the pool as
    it stood when the take began. Short of 2^64 submissions every `add_txs` call got consecutive
    numbers and nothing is lost.
   */
  lemma {:induction false} OperationsAreAtomic(
    order: TransactionOrder, impersonation: ImpersonationState, actions: seq<Action>)
    requires IsRun(Init(order, impersonation), actions)
    ensures var s := After(Init(order, impersonation), actions);
            && (forall i :: 0 <= i < |s.batches| ==> BatchOk(s.batches[i]))
            && (s.poolLock.None? ==> s.taken == Batched(s.batches))
            && (s.issued < U64 ==>
                  && (forall i :: 0 <= i < |s.bulks| ==> BulkOk(s.bulks[i], s.counter))
                  && Conserved(s.added, s.taken, s.removed, s.inner))
  {
    ReachableIsGood(order, impersonation, actions);
  }

  /**
    Every finished batch, by flag and accounts of the one snapshot it saw: all it may take with automatic
    impersonation, otherwise up to the first sender on the other side of the account set.
   */
  lemma {:induction false} BatchesFollowAccounts(
    order: TransactionOrder, impersonation: ImpersonationState, actions: seq<Action>, i: nat)
    requires IsRun(Init(order, impersonation), actions)
    requires i < |After(Init(order, impersonation), actions).batches|
    ensures var b := After(Init(order, impersonation), actions).batches[i];
            && b.pool != [] && CutByAccounts(b.pool, b.state.auto, b.state.accounts, b.n, |b.txs|)
            && b.txs == b.pool[..|b.txs|]
  {
    ReachableIsGood(order, impersonation, actions);
    var b := After(Init(order, impersonation), actions).batches[i];
    assert BatchOk(b);
    AccountsDecide(b.pool, b.state, b.n, |b.txs|);
  }

  /** A batch is served before everything it leaves in the pool: higher priority first, then earlier submission. */
  lemma {:induction false} HighestPriorityFirst(
    order: TransactionOrder, impersonation: ImpersonationState, actions: seq<Action>, i: nat,
    x: PoolTransaction, y: PoolTransaction)
    requires IsRun(Init(order, impersonation), actions)
    requires var s := After(Init(order, impersonation), actions);
             && i < |s.batches| && |s.batches[i].txs| <= |s.batches[i].pool|
             && x in s.batches[i].txs && y in s.batches[i].pool[|s.batches[i].txs|..]
    ensures x.priority >= y.priority
    ensures x.priority == y.priority ==> x.submissionNumber < y.submissionNumber
  {
    ReachableIsGood(order, impersonation, actions);
    var b := After(Init(order, impersonation), actions).batches[i];
    assert BatchOk(b);
    var k := |b.txs|;
    var p :| 0 <= p < k && b.txs[p] == x;
    var q :| 0 <= q < |b.pool[k..]| && b.pool[k..][q] == y;
    assert Before(b.pool[p], b.pool[k + q]);
  }

  /** Under Fees the transaction that the next take pops pays at least as much as any other in the pool. */
  lemma {:induction false} HeadPaysMost(impersonation: ImpersonationState, actions: seq<Action>, y: PoolTransaction)
    requires IsRun(Init(Fees, impersonation), actions)
    requires var s := After(Init(Fees, impersonation), actions); s.issued < U64 && y in s.inner
    ensures After(Init(Fees, impersonation), actions).inner[0].transaction.maxFeePerGas >= y.transaction.maxFeePerGas
  {
    ReachableIsGood(Fees, impersonation, actions);
    OrderIsFixed(Init(Fees, impersonation), actions);
    var s := After(Init(Fees, impersonation), actions);
    ConservedMembers(s);
    assert s.inner[0] in s.inner;
    var i :| 0 <= i < |s.inner| && s.inner[i] == y;
    assert i == 0 || Before(s.inner[0], s.inner[i]);
  }

  /** The lock order is free of deadlock: while any thread is inside an operation, some thread can move. */
  lemma {:induction false} NoDeadlock(s: State, t: ThreadId)
    requires Always(s) && !At(s, t).Idle?
    ensures exists a :: Enabled(s, a) && !a.StartAdd? && !a.StartAddMany? && !a.StartTake?
                        && !a.DropMatching? && !a.ClearPool? && !a.SetImpersonation?
  {
    if s.poolLock.Some? {
      var u := s.poolLock.value;
      assert HoldsPool(At(s, u)) && TakeOk(s, At(s, u));
      match At(s, u)
      case Filling(txs, done) => assert Enabled(s, if |done| < |txs| then InsertNext(u) else FinishAdd(u));
      case Popped(_, _) => assert Enabled(s, Inspect(u));
      case Inspecting(_, _, _, _) => assert Enabled(s, if TakesMore(s, At(s, u)) then TakeNext(u) else FinishTake(u));
    } else if s.numberLock.Some? {
      var u := s.numberLock.value;
      assert HoldsNumber(At(s, u)) && !HoldsPool(At(s, u));
      assert Enabled(s, if At(s, u).Numbered? then InsertOne(u) else EnterPool(u));
    } else {
      assert !HoldsPool(At(s, t)) && !HoldsNumber(At(s, t));
      assert Enabled(s, TakeNumber(t));
    }
  }
}
