/** The transaction pool (crates/core/src/node/pool.rs) with its ordering and impersonation state. */
module TransactionPool {
  import opened Wrappers
  import opened AddressMap
  import opened Selections

  const U64 := 0x1_0000_0000_0000_0000

  /** Where a transaction comes from; L1 priority transactions carry their serial id. */
  datatype Origin = L1(serialId: nat) | L2 | ProtocolUpgrade

  datatype Transaction = Transaction(hash: nat, initiator: Address, maxFeePerGas: nat, origin: Origin)

  datatype TransactionOrder = Fifo | Fees

  /** Under `Fifo` all rank the same, under `Fees` by fee. */
  function Priority(order: TransactionOrder, tx: Transaction): nat {
    match order
    case Fifo => 0
    case Fees => tx.maxFeePerGas
  }

  datatype ImpersonationState = ImpersonationState(auto: bool, accounts: set<Address>)
  {
    predicate IsImpersonating(address: Address) { auto || address in accounts }
  }

  datatype PoolTransaction = PoolTransaction(transaction: Transaction, submissionNumber: nat, priority: nat)

  datatype TxBatch = TxBatch(impersonating: bool, txs: seq<Transaction>)

  // ---------- The ordered set ----------

  /** `a` is greater than `b` in the set's order, hence popped before it. */
  predicate Before(a: PoolTransaction, b: PoolTransaction) {
    a.priority > b.priority || (a.priority == b.priority && a.submissionNumber < b.submissionNumber)
  }

  /** The two compare equal: the comparison never looks at the transaction itself. */
  predicate SameKey(a: PoolTransaction, b: PoolTransaction) {
    a.priority == b.priority && a.submissionNumber == b.submissionNumber
  }

  /** The set's contents from greatest to least, that is, in the order `pop_last` yields them. */
  ghost predicate Sorted(q: seq<PoolTransaction>) {
    forall i, j :: 0 <= i < j < |q| ==> Before(q[i], q[j])
  }

  ghost predicate HasKey(q: seq<PoolTransaction>, x: PoolTransaction) {
    exists i :: 0 <= i < |q| && SameKey(q[i], x)
  }

  /** `BTreeSet::insert`: a no-op when an equal element is present. */
  function Insert(q: seq<PoolTransaction>, x: PoolTransaction): seq<PoolTransaction> {
    if q == [] then [x]
    else if SameKey(q[0], x) then q
    else if Before(x, q[0]) then [x] + q
    else [q[0]] + Insert(q[1..], x)
  }

  lemma {:induction false} InsertMembers(q: seq<PoolTransaction>, x: PoolTransaction)
    ensures forall y :: y in Insert(q, x) ==> y in q || y == x
  {
    if q != [] && !SameKey(q[0], x) && !Before(x, q[0]) {
      InsertMembers(q[1..], x);
    }
  }

  lemma {:induction false} InsertSorted(q: seq<PoolTransaction>, x: PoolTransaction)
    requires Sorted(q)
    ensures Sorted(Insert(q, x))
  {
    if q == [] || SameKey(q[0], x) {
    } else if Before(x, q[0]) {
      assert forall i :: 0 <= i < |q| ==> i == 0 || Before(q[0], q[i]);
    } else {
      InsertSorted(q[1..], x);
      InsertMembers(q[1..], x);
      var rest := Insert(q[1..], x);
      forall j | 0 <= j < |rest|
        ensures Before(q[0], rest[j])
      {
        assert rest[j] in rest;
      }
    }
  }

  lemma {:induction false} InsertIsLossless(q: seq<PoolTransaction>, x: PoolTransaction)
    requires !HasKey(q, x)
    ensures multiset(Insert(q, x)) == multiset(q) + multiset{x}
  {
    if q != [] {
      assert q == [q[0]] + q[1..];
      if !Before(x, q[0]) {
        assert forall i :: 0 <= i < |q[1..]| ==> q[1..][i] == q[i + 1];
        InsertIsLossless(q[1..], x);
      }
    }
  }

  lemma {:induction false} InsertIsRefused(q: seq<PoolTransaction>, x: PoolTransaction)
    requires Sorted(q) && HasKey(q, x)
    ensures Insert(q, x) == q
  {
    var i :| 0 <= i < |q| && SameKey(q[i], x);
    if i > 0 {
      var rest := q[1..];
      assert Before(q[0], q[i]) && !SameKey(q[0], x) && !Before(x, q[0]);
      assert SameKey(rest[i - 1], x);
      InsertIsRefused(rest, x);
      assert q == [q[0]] + rest;
    }
  }

  /** Inserting keeps the set sorted and loses the new element exactly when its key is taken. */
  lemma {:induction false} InsertSpec(q: seq<PoolTransaction>, x: PoolTransaction)
    requires Sorted(q)
    ensures Sorted(Insert(q, x))
    ensures forall y :: y in Insert(q, x) ==> y in q || y == x
    ensures Insert(q, x) == q <==> HasKey(q, x)
    ensures multiset(Insert(q, x)) == multiset(q) + multiset{x} <==> !HasKey(q, x)
  {
    InsertSorted(q, x);
    InsertMembers(q, x);
    if HasKey(q, x) {
      InsertIsRefused(q, x);
      assert |multiset(q)| < |multiset(q) + multiset{x}|;
    } else {
      InsertIsLossless(q, x);
      assert |multiset(q)| < |multiset(q) + multiset{x}|;
    }
  }

  /** An element behind the whole set goes to its end. */
  lemma {:induction false} InsertLast(q: seq<PoolTransaction>, x: PoolTransaction)
    requires forall i :: 0 <= i < |q| ==> Before(q[i], x)
    ensures Insert(q, x) == q + [x]
  {
    if q != [] {
      InsertLast(q[1..], x);
      assert q == [q[0]] + q[1..];
    }
  }

  /** Assigns the next submission numbers to `txs` and inserts them one by one. */
  function InsertAll(q: seq<PoolTransaction>, order: TransactionOrder, counter: nat, txs: seq<Transaction>)
    : seq<PoolTransaction>
  {
    if txs == [] then q
    else var n := |txs| - 1;
         Insert(InsertAll(q, order, counter, txs[..n]),
                PoolTransaction(txs[n], (counter + n + 1) % U64, Priority(order, txs[n])))
  }

  lemma {:induction false} WrapNext(n: nat)
    ensures (n % U64 + 1) % U64 == (n + 1) % U64
  {
  }

  /** One more transaction under the next number. */
  lemma {:induction false} InsertAllStep(
    q: seq<PoolTransaction>, order: TransactionOrder, counter: nat, txs: seq<Transaction>, i: nat)
    requires i < |txs|
    ensures InsertAll(q, order, counter, txs[..i + 1])
         == Insert(InsertAll(q, order, counter, txs[..i]),
                   PoolTransaction(txs[i], ((counter + i) % U64 + 1) % U64, Priority(order, txs[i])))
    ensures ((counter + i) % U64 + 1) % U64 == (counter + i + 1) % U64
  {
    WrapNext(counter + i);
    assert txs[..i + 1][..i] == txs[..i];
  }

  // ---------- Taking a uniform run ----------

  ghost predicate Uniform(q: seq<PoolTransaction>, state: ImpersonationState) {
    forall i, j :: 0 <= i < |q| && 0 <= j < |q| ==>
      (state.IsImpersonating(q[i].transaction.initiator) <==> state.IsImpersonating(q[j].transaction.initiator))
  }

  /** `k` is the length of the longest uniform prefix of `q` with at most `n` elements. */
  ghost predicate LongestUniformPrefix(q: seq<PoolTransaction>, state: ImpersonationState, n: nat, k: nat) {
    && k <= n && k <= |q|
    && Uniform(q[..k], state)
    && forall m :: k < m <= n && m <= |q| ==> !Uniform(q[..m], state)
  }

  function Transactions(q: seq<PoolTransaction>): (txs: seq<Transaction>)
    ensures |txs| == |q|
    ensures forall i :: 0 <= i < |q| ==> txs[i] == q[i].transaction
  {
    seq(|q|, i requires 0 <= i < |q| => q[i].transaction)
  }

  /** Once the next element breaks uniformity no longer prefix is uniform. */
  lemma {:induction false} PrefixEnds(q: seq<PoolTransaction>, state: ImpersonationState, n: nat, k: nat)
    requires 0 < k <= n && k <= |q| && Uniform(q[..k], state)
    requires k < n && k < |q| ==>
      state.IsImpersonating(q[0].transaction.initiator) != state.IsImpersonating(q[k].transaction.initiator)
    ensures LongestUniformPrefix(q, state, n, k)
  {
    forall m | k < m <= n && m <= |q|
      ensures !Uniform(q[..m], state)
    {
      assert q[..m][0] == q[0] && q[..m][k] == q[k];
    }
  }

  /**
    `k` is what a take of at most `n` yields, by flag and account set: with automatic impersonation all it may
    take; otherwise up to the first sender who is in the set where the head is not, or the other way round.
   */
  ghost predicate CutByAccounts(q: seq<PoolTransaction>, auto: bool, accounts: set<Address>, n: nat, k: nat)
    requires q != []
  {
    && 0 < k <= n && k <= |q|
    && (auto ==> k == n || k == |q|)
    && (!auto ==>
          && (forall i :: 0 <= i < k ==>
                (q[i].transaction.initiator in accounts <==> q[0].transaction.initiator in accounts))
          && (k < n && k < |q| ==>
                (q[k].transaction.initiator in accounts <==> q[0].transaction.initiator !in accounts)))
  }

  /** The longest uniform prefix, told by flag and accounts alone. */
  lemma {:induction false} AccountsDecide(q: seq<PoolTransaction>, state: ImpersonationState, n: nat, k: nat)
    requires q != [] && n > 0
    ensures LongestUniformPrefix(q, state, n, k) <==> CutByAccounts(q, state.auto, state.accounts, n, k)
  {
    if LongestUniformPrefix(q, state, n, k) {
      assert Uniform(q[..1], state);
      assert forall i :: 0 <= i < k ==> q[..k][i] == q[i];
      if k < n && k < |q| {
        NextBreaks(q, state, k);
      }
    }
    if CutByAccounts(q, state.auto, state.accounts, n, k) {
      assert Uniform(q[..k], state);
      PrefixEnds(q, state, n, k);
    }
  }

  lemma {:induction false} NextBreaks(q: seq<PoolTransaction>, state: ImpersonationState, k: nat)
    requires 0 < k < |q| && Uniform(q[..k], state) && !Uniform(q[..k + 1], state)
    ensures !state.auto
    ensures q[k].transaction.initiator in state.accounts <==> q[0].transaction.initiator !in state.accounts
  {
    var p := q[..k];
    assert forall i :: 0 <= i < k ==> p[i] == q[i] == q[..k + 1][i];
    assert forall i :: 0 <= i < k ==>
      (state.IsImpersonating(p[i].transaction.initiator) <==> state.IsImpersonating(p[0].transaction.initiator));
  }

  function Filter(q: seq<PoolTransaction>, f: PoolTransaction -> bool): seq<PoolTransaction> {
    if q == [] then [] else (if f(q[0]) then [q[0]] else []) + Filter(q[1..], f)
  }

  lemma {:induction false} FilterMembers(q: seq<PoolTransaction>, f: PoolTransaction -> bool)
    ensures forall x :: x in Filter(q, f) <==> x in q && f(x)
  {
    if q != [] {
      FilterMembers(q[1..], f);
      assert q == [q[0]] + q[1..];
    }
  }

  lemma {:induction false} FilterSorted(q: seq<PoolTransaction>, f: PoolTransaction -> bool)
    requires Sorted(q)
    ensures Sorted(Filter(q, f))
  {
    if q != [] {
      FilterSorted(q[1..], f);
      FilterMembers(q[1..], f);
      var rest := Filter(q[1..], f);
      assert forall i :: 0 <= i < |rest| ==> rest[i] in rest;
      assert forall x :: x in q[1..] ==> Before(q[0], x);
    }
  }

  lemma {:induction false} FilterSplits(q: seq<PoolTransaction>, f: PoolTransaction -> bool)
    ensures multiset(q) == multiset(Filter(q, f)) + multiset(Filter(q, x => !f(x)))
  {
    if q != [] {
      FilterSplits(q[1..], f);
      assert q == [q[0]] + q[1..];
    }
  }

  /** Splitting a sorted set by a condition yields two sorted sets that together hold it all. */
  lemma {:induction false} FilterSpec(q: seq<PoolTransaction>, f: PoolTransaction -> bool)
    requires Sorted(q)
    ensures Sorted(Filter(q, f))
    ensures forall x :: x in Filter(q, f) <==> x in q && f(x)
    ensures multiset(q) == multiset(Filter(q, f)) + multiset(Filter(q, x => !f(x)))
  {
    FilterSorted(q, f);
    FilterMembers(q, f);
    FilterSplits(q, f);
  }

  function Reverse<T>(s: seq<T>): (r: seq<T>)
    ensures |r| == |s|
    ensures forall i :: 0 <= i < |s| ==> r[i] == s[|s| - 1 - i]
  {
    if s == [] then [] else Reverse(s[1..]) + [s[0]]
  }

  /** What dropping by `f` returns: the matching transactions from least to greatest. */
  function Dropped(q: seq<PoolTransaction>, f: PoolTransaction -> bool): seq<Transaction> {
    Transactions(Reverse(Filter(q, f)))
  }

  lemma {:induction false} FilterSelects(q: seq<PoolTransaction>, f: PoolTransaction -> bool)
    ensures IsSelection(q, f, Filter(q, f))
  {
    if q == [] {
      SelectFromNothing(f);
    } else {
      FilterSelects(q[1..], f);
      SelectFirst(q, f, Filter(q[1..], f));
    }
  }

  /** `txs` are the transactions of `entries` from last to first. */
  ghost predicate ListsBackwards(txs: seq<Transaction>, entries: seq<PoolTransaction>) {
    |txs| == |entries| && forall k :: 0 <= k < |txs| ==> txs[k] == entries[|entries| - 1 - k].transaction
  }

  /** A drop returns all matching transactions, as often as they occur, in the reverse of the pool's order. */
  lemma {:induction false} DroppedListsMatches(q: seq<PoolTransaction>, f: PoolTransaction -> bool)
    ensures exists chosen :: IsSelection(q, f, chosen) && ListsBackwards(Dropped(q, f), chosen)
  {
    FilterSelects(q, f);
    assert ListsBackwards(Dropped(q, f), Filter(q, f));
  }

  function HasHash(hash: nat): PoolTransaction -> bool {
    (x: PoolTransaction) => x.transaction.hash == hash
  }

  /** `x` is the least element of the set that satisfies `f`. */
  ghost predicate IsLeast(q: seq<PoolTransaction>, f: PoolTransaction -> bool, x: PoolTransaction) {
    x in q && f(x) && forall y :: y in q && f(y) && y != x ==> Before(y, x)
  }

  /** Something is dropped exactly when something matches, and what is returned first is the least match. */
  lemma {:induction false} FirstDropped(q: seq<PoolTransaction>, f: PoolTransaction -> bool)
    requires Sorted(q)
    ensures Dropped(q, f) == [] <==> forall x :: x in q ==> !f(x)
    ensures Dropped(q, f) != [] ==> exists x :: IsLeast(q, f, x) && Dropped(q, f)[0] == x.transaction
  {
    FilterMembers(q, f);
    FilterSorted(q, f);
    var matching := Filter(q, f);
    if matching != [] {
      var last := matching[|matching| - 1];
      assert last in matching;
      forall y | y in q && f(y) && y != last
        ensures Before(y, last)
      {
        assert y in matching;
      }
      assert IsLeast(q, f, last);
    }
  }

  class ImpersonationManager {
    var state: ImpersonationState

    constructor ()
      ensures state == ImpersonationState(false, {})
    {
      state := ImpersonationState(false, {});
    }

    method SetAutoImpersonation(enabled: bool)
      modifies this
      ensures state == old(state).(auto := enabled)
    {
      state := state.(auto := enabled);
    }

    /** `added` tells whether the account is new to the set. */
    method Impersonate(address: Address) returns (added: bool)
      modifies this
      ensures added <==> address !in old(state.accounts)
      ensures state == old(state).(accounts := old(state.accounts) + {address})
    {
      added := address !in state.accounts;
      state := state.(accounts := state.accounts + {address});
    }

    /** `removed` tells whether the account was in the set. */
    method StopImpersonating(address: Address) returns (removed: bool)
      modifies this
      ensures removed <==> address in old(state.accounts)
      ensures state == old(state).(accounts := old(state.accounts) - {address})
    {
      removed := address in state.accounts;
      state := state.(accounts := state.accounts - {address});
    }
  }

  /** The pool as its callers see it: every operation is one atomic step. */
  class TxPool {
    /** The ordered set, from greatest to least. */
    var inner: seq<PoolTransaction>
    const order: TransactionOrder
    var submissionNumber: nat
    const impersonation: ImpersonationManager

    ghost predicate Valid()
      reads this
    {
      Sorted(inner) && submissionNumber < U64
    }

    constructor (impersonation: ImpersonationManager, order: TransactionOrder)
      ensures Valid() && inner == [] && submissionNumber == 0
      ensures this.impersonation == impersonation && this.order == order
    {
      this.inner, this.submissionNumber := [], 0;
      this.impersonation, this.order := impersonation, order;
    }

    method AddTx(tx: Transaction)
      requires Valid()
      modifies this
      ensures Valid()
      ensures submissionNumber == (old(submissionNumber) + 1) % 0x1_0000_0000_0000_0000
      ensures inner == Insert(old(inner), PoolTransaction(tx, submissionNumber, Priority(order, tx)))
    {
      var priority := Priority(order, tx);
      submissionNumber := (submissionNumber + 1) % U64;
      var entry := PoolTransaction(tx, submissionNumber, priority);
      InsertSpec(inner, entry);
      inner := Insert(inner, entry);
    }

    method AddTxs(txs: seq<Transaction>)
      requires Valid()
      modifies this
      ensures Valid()
      ensures submissionNumber == (old(submissionNumber) + |txs|) % U64
      ensures inner == InsertAll(old(inner), order, old(submissionNumber), txs)
    {
      for i := 0 to |txs|
        invariant Valid()
        invariant submissionNumber == (old(submissionNumber) + i) % U64
        invariant inner == InsertAll(old(inner), order, old(submissionNumber), txs[..i])
      {
        var priority := Priority(order, txs[i]);
        InsertAllStep(old(inner), order, old(submissionNumber), txs, i);
        submissionNumber := (submissionNumber + 1) % U64;
        var entry := PoolTransaction(txs[i], submissionNumber, priority);
        InsertSorted(inner, entry);
        inner := Insert(inner, entry);
      }
      assert txs[..|txs|] == txs;
    }

    /** Removes the matching transactions and returns them from least to greatest. */
    method DropTransactions(f: PoolTransaction -> bool) returns (dropped: seq<Transaction>)
      requires Valid()
      modifies this
      ensures Valid() && submissionNumber == old(submissionNumber)
      ensures inner == Filter(old(inner), x => !f(x))
      ensures dropped == Dropped(old(inner), f)
      ensures multiset(old(inner)) == multiset(inner) + multiset(Filter(old(inner), f))
    {
      FilterSpec(inner, f);
      FilterSpec(inner, x => !f(x));
      dropped := Dropped(inner, f);
      inner := Filter(inner, x => !f(x));
    }

    /** Drops every transaction with this hash and gives back the least of them. */
    method DropTransaction(hash: nat) returns (dropped: Option<Transaction>)
      requires Valid()
      modifies this
      ensures Valid() && submissionNumber == old(submissionNumber)
      ensures inner == Filter(old(inner), (x: PoolTransaction) => x.transaction.hash != hash)
      ensures dropped.Some? ==>
        exists x :: IsLeast(old(inner), HasHash(hash), x) && dropped.value == x.transaction
      ensures dropped.None? <==> forall x :: x in old(inner) ==> x.transaction.hash != hash
    {
      var f := HasHash(hash);
      var txs := DropTransactions(f);
      FilterExt(old(inner), x => !f(x), (x: PoolTransaction) => x.transaction.hash != hash);
      FirstDropped(old(inner), f);
      dropped := if txs == [] then None else Some(txs[0]);
    }

    /** Nothing stays; numbering goes on from where it was. */
    method Clear()
      requires Valid()
      modifies this
      ensures Valid() && inner == [] && submissionNumber == old(submissionNumber)
    {
      inner := [];
    }

    /**
      Cuts off the front of the pool the longest run, of at most `n`, in which either all senders are
      impersonated or none is.
     */
    method TakeUniform(n: nat) returns (batch: Option<TxBatch>)
      requires Valid()
      modifies this
      ensures Valid() && submissionNumber == old(submissionNumber)
      ensures batch.None? <==> n == 0 || old(inner) == []
      ensures batch.None? ==> inner == old(inner)
      ensures batch.Some? ==>
        var k := |batch.value.txs|;
        && LongestUniformPrefix(old(inner), impersonation.state, n, k)
        && CutByAccounts(old(inner), impersonation.state.auto, impersonation.state.accounts, n, k)
        && batch.value.txs == Transactions(old(inner)[..k])
        && (batch.value.impersonating <==>
              impersonation.state.auto || old(inner)[0].transaction.initiator in impersonation.state.accounts)
        && inner == old(inner)[k..]
    {
      if n == 0 {
        return None;
      }
      if inner == [] {
        return None;
      }
      ghost var q := inner;
      var head := inner[0];
      inner := inner[1..];
      var state := impersonation.state;
      var impersonating := state.IsImpersonating(head.transaction.initiator);
      var taken := [head.transaction];
      while |taken| < n
        invariant 0 < |taken| <= n && |taken| <= |q|
        invariant inner == q[|taken|..]
        invariant taken == Transactions(q[..|taken|])
        invariant Uniform(q[..|taken|], state)
        invariant submissionNumber == old(submissionNumber)
        decreases n - |taken|
      {
        if inner == [] {
          break;
        }
        var next := inner[0];
        assert next == q[|taken|];
        assert q[..|taken|][0] == q[0];
        if impersonating != state.IsImpersonating(next.transaction.initiator) {
          break;
        }
        inner := inner[1..];
        taken := taken + [next.transaction];
      }
      PrefixEnds(q, state, n, |taken|);
      AccountsDecide(q, state, n, |taken|);
      batch := Some(TxBatch(impersonating, taken));
    }
  }

  lemma {:induction false} FilterExt(q: seq<PoolTransaction>, f: PoolTransaction -> bool, g: PoolTransaction -> bool)
    requires forall x :: f(x) == g(x)
    ensures Filter(q, f) == Filter(q, g)
  {
    if q != [] {
      FilterExt(q[1..], f, g);
    }
  }
}
