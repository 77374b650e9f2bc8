/** Draining the pool batch by batch: what does not depend on the batch sizes, and why greedy is best. */
module PoolBatching {
  import opened TransactionPool

  predicate Status(x: PoolTransaction, state: ImpersonationState) {
    state.IsImpersonating(x.transaction.initiator)
  }

  /** How many transactions `take_uniform(n)` takes from `q`. */
  function RunLength(q: seq<PoolTransaction>, state: ImpersonationState, n: nat): (k: nat)
    ensures k <= n && k <= |q|
    ensures k == 0 <==> q == [] || n == 0
  {
    if q == [] || n == 0 then 0
    else if n == 1 || |q| == 1 || Status(q[0], state) != Status(q[1], state) then 1
    else 1 + RunLength(q[1..], state, n - 1)
  }

  lemma {:induction false} RunIsUniform(q: seq<PoolTransaction>, state: ImpersonationState, n: nat)
    ensures var k := RunLength(q, state, n);
            && (forall i :: 0 <= i < k ==> Status(q[i], state) == Status(q[0], state))
            && (k < n && k < |q| ==> k > 0 && Status(q[k], state) != Status(q[0], state))
  {
    if q == [] || n == 0 || n == 1 || |q| == 1 || Status(q[0], state) != Status(q[1], state) {
    } else {
      RunIsUniform(q[1..], state, n - 1);
      var k := RunLength(q, state, n);
      var rest := q[1..];
      assert forall j :: 0 <= j < k - 1 ==> Status(rest[j], state) == Status(rest[0], state);
      assert forall i :: 1 <= i < |q| ==> q[i] == rest[i - 1];
    }
  }

  /** The run length is the one and only length that `take_uniform` may take. */
  lemma {:induction false} RunIsLongest(q: seq<PoolTransaction>, state: ImpersonationState, n: nat, k: nat)
    ensures LongestUniformPrefix(q, state, n, k) <==> k == RunLength(q, state, n)
  {
    var run := RunLength(q, state, n);
    RunIsUniform(q, state, n);
    assert Uniform(q[..run], state);
    if run > 0 {
      PrefixEnds(q, state, n, run);
    }
    assert LongestUniformPrefix(q, state, n, run);
    if LongestUniformPrefix(q, state, n, k) {
      assert !(run < k) && !(k < run);
    }
  }

  function Concat<T>(blocks: seq<seq<T>>): seq<T> {
    if blocks == [] then [] else blocks[0] + Concat(blocks[1..])
  }

  // ---------- Any way of draining ----------

  datatype Choice = Choice(n: nat, state: ImpersonationState)

  /** The batches of successive takes, each with its own limit and impersonation state. */
  function Takes(q: seq<PoolTransaction>, choices: seq<Choice>): seq<seq<PoolTransaction>> {
    if choices == [] then []
    else var k := RunLength(q, choices[0].state, choices[0].n);
         [q[..k]] + Takes(q[k..], choices[1..])
  }

  /**
    Whatever the limits and however impersonation changes in between, successive takes yield the pool
    in its order from the front; enough takes with positive limits yield all of it.
   */
  lemma {:induction false} TakesDrainInOrder(q: seq<PoolTransaction>, choices: seq<Choice>)
    ensures Concat(Takes(q, choices)) <= q
    ensures |choices| >= |q| && (forall i :: 0 <= i < |choices| ==> choices[i].n > 0) ==> Concat(Takes(q, choices)) == q
  {
    if choices != [] {
      var k := RunLength(q, choices[0].state, choices[0].n);
      TakesDrainInOrder(q[k..], choices[1..]);
      assert q == q[..k] + q[k..];
      assert Takes(q, choices)[1..] == Takes(q[k..], choices[1..]);
      if |choices| >= |q| && forall i :: 0 <= i < |choices| ==> choices[i].n > 0 {
        assert forall i :: 0 <= i < |choices[1..]| ==> choices[1..][i].n > 0;
        assert Concat(Takes(q[k..], choices[1..])) == q[k..];
      }
    }
  }

  // ---------- Greedy batching is optimal ----------

  /** The batches of draining `q` with a fixed limit and a fixed impersonation state. */
  function Drain(q: seq<PoolTransaction>, state: ImpersonationState, n: nat): seq<seq<PoolTransaction>>
    requires n > 0
    decreases |q|
  {
    if q == [] then []
    else var k := RunLength(q, state, n); [q[..k]] + Drain(q[k..], state, n)
  }

  /** A way to cut a sequence into consecutive uniform blocks of at most `n` elements. */
  ghost predicate IsCut(blocks: seq<seq<PoolTransaction>>, state: ImpersonationState, n: nat) {
    forall i :: 0 <= i < |blocks| ==> |blocks[i]| <= n && Uniform(blocks[i], state)
  }

  lemma {:induction false} DrainIsCut(q: seq<PoolTransaction>, state: ImpersonationState, n: nat)
    requires n > 0
    ensures IsCut(Drain(q, state, n), state, n) && Concat(Drain(q, state, n)) == q
    decreases |q|
  {
    if q != [] {
      var k := RunLength(q, state, n);
      RunIsUniform(q, state, n);
      DrainIsCut(q[k..], state, n);
      assert Drain(q, state, n)[1..] == Drain(q[k..], state, n);
      assert q == q[..k] + q[k..];
    }
  }

  function Repeat(choice: Choice, times: nat): seq<Choice> {
    if times == 0 then [] else [choice] + Repeat(choice, times - 1)
  }

  /** Draining is taking again and again with the same limit and state. */
  lemma {:induction false} DrainIsRepeatedTakes(q: seq<PoolTransaction>, state: ImpersonationState, n: nat)
    requires n > 0
    ensures Drain(q, state, n) == Takes(q, Repeat(Choice(n, state), |Drain(q, state, n)|))
    decreases |q|
  {
    if q != [] {
      var rest := q[RunLength(q, state, n)..];
      DrainIsRepeatedTakes(rest, state, n);
      var choices := Repeat(Choice(n, state), |Drain(q, state, n)|);
      assert choices[1..] == Repeat(Choice(n, state), |Drain(rest, state, n)|);
    }
  }

  /** Dropping the first element shortens the first run by at most one. */
  lemma {:induction false} RunAfterDrop(q: seq<PoolTransaction>, state: ImpersonationState, n: nat)
    requires q != [] && n > 0
    ensures RunLength(q, state, n) <= RunLength(q[1..], state, n) + 1
  {
    RunIsUniform(q, state, n);
    RunIsUniform(q[1..], state, n);
    assert forall i :: 0 <= i < |q| - 1 ==> q[1..][i] == q[i + 1];
  }

  lemma {:induction false} DropTwice<T>(q: seq<T>, a: nat, b: nat)
    requires a + b <= |q|
    ensures q[a..][b..] == q[a + b..]
  {
  }

  /** A suffix never needs more batches. */
  lemma {:induction false} SuffixNeedsNoMore(q: seq<PoolTransaction>, state: ImpersonationState, n: nat, d: nat)
    requires n > 0 && d <= |q|
    ensures |Drain(q[d..], state, n)| <= |Drain(q, state, n)|
    decreases |q|, d
  {
    if d == 0 {
      assert q[0..] == q;
    } else {
      TailNeedsNoMore(q, state, n);
      SuffixNeedsNoMore(q[1..], state, n, d - 1);
      DropTwice(q, 1, d - 1);
    }
  }

  lemma {:induction false} TailNeedsNoMore(q: seq<PoolTransaction>, state: ImpersonationState, n: nat)
    requires n > 0 && q != []
    ensures |Drain(q[1..], state, n)| <= |Drain(q, state, n)|
    decreases |q|, 0
  {
    if |q| > 1 {
      var k, next := RunLength(q, state, n), RunLength(q[1..], state, n);
      RunAfterDrop(q, state, n);
      SuffixNeedsNoMore(q[k..], state, n, next + 1 - k);
      DropTwice(q, k, next + 1 - k);
      DropOne(q, state, n);
    }
  }

  /** Without its first element a sequence needs no more batches, if that holds behind the first batches. */
  lemma {:induction false} DropOne(q: seq<PoolTransaction>, state: ImpersonationState, n: nat)
    requires n > 0 && |q| > 1
    requires |Drain(q[RunLength(q[1..], state, n) + 1..], state, n)| <= |Drain(q[RunLength(q, state, n)..], state, n)|
    ensures |Drain(q[1..], state, n)| <= |Drain(q, state, n)|
  {
    var next := RunLength(q[1..], state, n);
    assert q[1..][next..] == q[next + 1..];
  }

  /** Draining greedily uses no more batches than any other cut of the same sequence. */
  lemma {:induction false} GreedyIsOptimal(
    q: seq<PoolTransaction>, state: ImpersonationState, n: nat, blocks: seq<seq<PoolTransaction>>)
    requires n > 0 && IsCut(blocks, state, n) && Concat(blocks) == q
    ensures |Drain(q, state, n)| <= |blocks|
    decreases |blocks|
  {
    if q != [] {
      var first, k := blocks[0], RunLength(q, state, n);
      assert first == q[..|first|];
      assert q[|first|..] == Concat(blocks[1..]);
      GreedyIsOptimal(q[|first|..], state, n, blocks[1..]);
      if first == [] {
        assert q[0..] == q;
      } else {
        RunIsLongest(q, state, n, k);
        assert |first| <= k;
        assert q[|first|..][k - |first|..] == q[k..];
        SuffixNeedsNoMore(q[|first|..], state, n, k - |first|);
      }
    }
  }
}
