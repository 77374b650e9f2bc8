/** Batch metadata on demand, generated once and remembered (crates/l1_sidecar/src/commitment_generator.rs). */
module CommitmentGenerator {
  import opened Wrappers
  import opened AddressMap

  datatype ContractsHashes = ContractsHashes(bootloader: nat, defaultAa: nat, evmEmulator: nat)

  datatype BatchHeader = BatchHeader(
    number: nat, feeAddress: Address, contracts: ContractsHashes, protocolVersion: nat,
    priorityOps: seq<nat>, l2ToL1Logs: seq<nat>, systemLogs: seq<nat>)

  /** What local storage knows about a sealed batch. */
  datatype StoredBatch = StoredBatch(header: BatchHeader, stateDiffs: seq<nat>, aggregationRoot: nat)

  /** Sealed batches by number. */
  type Blockchain = chain: map<nat, StoredBatch> | forall n :: n in chain ==> chain[n].header.number == n
    witness map[]

  /** The input of the commitment; the hashes computed from it are not modelled further. */
  datatype CommitmentInput =
    | ForGenesis(rootHash: nat, leafIndex: nat, contracts: ContractsHashes, protocolVersion: nat)
    | PostBoojum(rootHash: nat, leafIndex: nat, contracts: ContractsHashes, protocolVersion: nat,
                 l2ToL1Logs: seq<nat>, systemLogs: seq<nat>, stateDiffs: seq<nat>, aggregationRoot: nat)

  datatype L1Batch = L1Batch(header: BatchHeader, input: CommitmentInput)

  /** What the zkstack configuration fixes. */
  datatype Config = Config(contracts: ContractsHashes, feeAccount: Address, protocolVersion: nat,
                           genesisRoot: nat, genesisLeafIndex: nat)

  function Genesis(config: Config): (genesis: L1Batch)
    ensures genesis.header.number == 0 && genesis.header.feeAddress == config.feeAccount
    ensures genesis.header.contracts == genesis.input.contracts == config.contracts
    ensures genesis.header.protocolVersion == genesis.input.protocolVersion == config.protocolVersion
    ensures genesis.header.priorityOps == genesis.header.l2ToL1Logs == genesis.header.systemLogs == []
    ensures genesis.input.ForGenesis? && genesis.input.rootHash == config.genesisRoot
    ensures genesis.input.leafIndex == config.genesisLeafIndex
  {
    L1Batch(BatchHeader(0, config.feeAccount, config.contracts, config.protocolVersion, [], [], []),
            ForGenesis(config.genesisRoot, config.genesisLeafIndex, config.contracts, config.protocolVersion))
  }

  /** Fresh metadata: the stored header is patched to what L1 expects, the root is the random `root`. */
  function Generate(config: Config, stored: StoredBatch, root: nat): (batch: L1Batch)
    ensures batch.header.number == stored.header.number && batch.header.priorityOps == stored.header.priorityOps
    ensures batch.header.feeAddress == config.feeAccount
    ensures batch.header.contracts == batch.input.contracts == config.contracts
    ensures batch.header.protocolVersion == batch.input.protocolVersion == stored.header.protocolVersion
    ensures batch.input.PostBoojum? && batch.input.rootHash == root && batch.input.leafIndex == 42
    ensures batch.header.l2ToL1Logs == batch.input.l2ToL1Logs == stored.header.l2ToL1Logs
    ensures batch.header.systemLogs == batch.input.systemLogs == stored.header.systemLogs
    ensures batch.input.stateDiffs == stored.stateDiffs && batch.input.aggregationRoot == stored.aggregationRoot
  {
    var header := stored.header.(feeAddress := config.feeAccount, contracts := config.contracts);
    L1Batch(header, PostBoojum(root, 42, config.contracts, header.protocolVersion, header.l2ToL1Logs,
                               header.systemLogs, stored.stateDiffs, stored.aggregationRoot))
  }

  class CommitmentGenerator {
    const config: Config
    var batches: map<nat, L1Batch>

    ghost predicate Valid()
      reads this
    {
      && 0 in batches && batches[0] == Genesis(config)
      && forall n :: n in batches ==> batches[n].header.number == n
    }

    constructor (config: Config)
      ensures Valid() && this.config == config && batches == map[0 := Genesis(config)]
    {
      this.config := config;
      this.batches := map[0 := Genesis(config)];
    }

    /** One caller at a time: whatever is answered is in the memo afterwards, and no entry is ever replaced. */
    method GetOrGenerateMetadata(number: nat, chain: Blockchain, root: nat) returns (batch: Option<L1Batch>)
      requires Valid()
      modifies this
      ensures Valid()
      ensures batch.None? <==> number !in old(batches) && number !in chain
      ensures batch.None? ==> batches == old(batches)
      ensures batch.Some? ==> batches == old(batches)[number := batch.value] && batch.value.header.number == number
      ensures number in old(batches) ==> batch == Some(old(batches)[number])
      ensures number !in old(batches) && number in chain ==> batch == Some(Generate(config, chain[number], root))
    {
      if number in batches {
        batch := Some(batches[number]);
        assert batches == batches[number := batches[number]];
        return;
      }
      if number !in chain {
        return None;
      }
      var metadata := Generate(config, chain[number], root);
      batches := batches[number := metadata];
      batch := Some(metadata);
    }
  }

  // ---------- Concurrent callers ----------

  type CallerId = nat

  /** A caller between its failed lookup and its insertion. */
  datatype Pc = Idle | Generating(number: nat)

  datatype Answer = Answer(number: nat, batch: L1Batch)

  datatype Memo = Memo(config: Config, batches: map<nat, L1Batch>, pcs: map<CallerId, Pc>, answers: seq<Answer>)

  function Fresh(config: Config): Memo { Memo(config, map[0 := Genesis(config)], map[], []) }

  function At(m: Memo, c: CallerId): Pc { if c in m.pcs then m.pcs[c] else Idle }

  datatype Event =
    | Lookup(c: CallerId, number: nat)                 // answers at once when the batch is known
    | GiveUp(c: CallerId)                              // the batch does not exist
    | Store(c: CallerId, stored: StoredBatch, root: nat) // generates from the stored batch, inserts and answers

  predicate CanHappen(m: Memo, e: Event) {
    match e
    case Lookup(c, _) => At(m, c).Idle?
    case GiveUp(c) => At(m, c).Generating?
    case Store(c, stored, _) => At(m, c).Generating? && stored.header.number == At(m, c).number
  }

  function Happen(m: Memo, e: Event): Memo
    requires CanHappen(m, e)
  {
    match e
    case Lookup(c, n) =>
      if n in m.batches then m.(answers := m.answers + [Answer(n, m.batches[n])])
      else m.(pcs := m.pcs[c := Generating(n)])
    case GiveUp(c) => m.(pcs := m.pcs[c := Idle])
    case Store(c, stored, root) =>
      var n, batch := At(m, c).number, Generate(m.config, stored, root);
      m.(batches := m.batches[n := batch], pcs := m.pcs[c := Idle], answers := m.answers + [Answer(n, batch)])
  }

  /** No two callers generate the same batch at the same time. */
  ghost predicate NoOverlap(m: Memo) {
    forall c: CallerId, d: CallerId :: c != d && At(m, c).Generating? && At(m, d).Generating? ==>
      At(m, c).number != At(m, d).number
  }

  ghost predicate IsRun(m: Memo, es: seq<Event>)
    decreases |es|
  {
    es == [] || (CanHappen(m, es[0]) && IsRun(Happen(m, es[0]), es[1..]))
  }

  ghost function After(m: Memo, es: seq<Event>): Memo
    requires IsRun(m, es)
    decreases |es|
  {
    if es == [] then m else After(Happen(m, es[0]), es[1..])
  }

  ghost predicate NeverOverlaps(m: Memo, es: seq<Event>)
    requires IsRun(m, es)
    decreases |es|
  {
    NoOverlap(m) && (es == [] || NeverOverlaps(Happen(m, es[0]), es[1..]))
  }

  /** What `CommitmentGenerator.Valid` says of the memo, and nobody is generating genesis. */
  ghost predicate MemoValid(m: Memo) {
    && 0 in m.batches && m.batches[0] == Genesis(m.config)
    && (forall n :: n in m.batches ==> m.batches[n].header.number == n)
    && (forall c: CallerId :: At(m, c).Generating? ==> At(m, c).number != 0)
  }

  lemma {:induction false} EventKeepsMemoValid(m: Memo, e: Event)
    requires MemoValid(m) && CanHappen(m, e)
    ensures MemoValid(Happen(m, e)) && Happen(m, e).config == m.config
  {
    var m' := Happen(m, e);
    assert forall c: CallerId :: c != e.c ==> At(m', c) == At(m, c);
  }

  /** Every interleaving, overlapping or not, keeps the validity that the one-caller object keeps. */
  lemma {:induction false} RunKeepsMemoValid(m: Memo, es: seq<Event>)
    requires MemoValid(m) && IsRun(m, es)
    ensures MemoValid(After(m, es)) && After(m, es).config == m.config
    decreases |es|
  {
    if es != [] {
      EventKeepsMemoValid(m, es[0]);
      RunKeepsMemoValid(Happen(m, es[0]), es[1..]);
    }
  }

  /** Every answer is what the memo holds, and nobody is generating a batch the memo already holds. */
  ghost predicate Settled(m: Memo) {
    && (forall i :: 0 <= i < |m.answers| ==>
          m.answers[i].number in m.batches && m.answers[i].batch == m.batches[m.answers[i].number])
    && (forall c: CallerId :: At(m, c).Generating? ==> At(m, c).number !in m.batches)
  }

  lemma {:induction false} EventKeepsSettled(m: Memo, e: Event)
    requires Settled(m) && NoOverlap(m) && CanHappen(m, e)
    ensures Settled(Happen(m, e))
  {
    var m' := Happen(m, e);
    forall c: CallerId | At(m', c).Generating?
      ensures At(m', c).number !in m'.batches
    {
      assert c != e.c ==> At(m', c) == At(m, c);
      if e.Store? {
        assert At(m, c).number != At(m, e.c).number;
      }
    }
  }

  lemma {:induction false} RunKeepsSettled(m: Memo, es: seq<Event>)
    requires Settled(m) && IsRun(m, es) && NeverOverlaps(m, es)
    ensures Settled(After(m, es))
    decreases |es|
  {
    if es != [] {
      EventKeepsSettled(m, es[0]);
      RunKeepsSettled(Happen(m, es[0]), es[1..]);
    }
  }

  /** Without overlapping generation all answers for a batch agree, in spite of the random root. */
  lemma {:induction false} MemoIsStable(config: Config, es: seq<Event>, i: nat, j: nat)
    requires IsRun(Fresh(config), es) && NeverOverlaps(Fresh(config), es)
    requires var answers := After(Fresh(config), es).answers;
             i < |answers| && j < |answers| && answers[i].number == answers[j].number
    ensures var answers := After(Fresh(config), es).answers; answers[i].batch == answers[j].batch
  {
    RunKeepsSettled(Fresh(config), es);
  }

  ghost predicate AnswersGenesis(m: Memo) {
    forall i :: 0 <= i < |m.answers| && m.answers[i].number == 0 ==> m.answers[i].batch == Genesis(m.config)
  }

  lemma {:induction false} RunAnswersGenesis(m: Memo, es: seq<Event>)
    requires MemoValid(m) && AnswersGenesis(m) && IsRun(m, es)
    ensures AnswersGenesis(After(m, es)) && After(m, es).config == m.config
    decreases |es|
  {
    if es != [] {
      EventKeepsMemoValid(m, es[0]);
      RunAnswersGenesis(Happen(m, es[0]), es[1..]);
    }
  }

  /** Batch 0 is answered with genesis in every run, overlapping or not. */
  lemma {:induction false} BatchZeroIsGenesis(config: Config, es: seq<Event>, i: nat)
    requires IsRun(Fresh(config), es)
    requires i < |After(Fresh(config), es).answers| && After(Fresh(config), es).answers[i].number == 0
    ensures After(Fresh(config), es).answers[i].batch == Genesis(config)
  {
    RunAnswersGenesis(Fresh(config), es);
  }

  /** The last two answers are for batch `n` and differ. */
  ghost predicate DisagreeLast(answers: seq<Answer>, n: nat) {
    var k := |answers|;
    k >= 2 && answers[k - 2].number == answers[k - 1].number == n && answers[k - 2].batch != answers[k - 1].batch
  }

  lemma {:induction false} OneEvent(m: Memo, e: Event)
    requires CanHappen(m, e)
    ensures IsRun(m, [e]) && After(m, [e]) == Happen(m, e)
  {
    assert [e][1..] == [];
    assert After(Happen(m, e), []) == Happen(m, e);
  }

  /**
    Wherever two callers are generating the same batch, the run can go on so that they answer
    differently: the absence of overlap is exactly what stability needs.
   */
  lemma {:induction false} OverlapCanDisagree(m: Memo, c: CallerId, d: CallerId, stored: StoredBatch)
    requires c != d && At(m, c).Generating? && At(m, c) == At(m, d) && stored.header.number == At(m, c).number
    ensures exists es :: IsRun(m, es) && DisagreeLast(After(m, es).answers, At(m, c).number)
  {
    var first, second := Store(c, stored, 0), Store(d, stored, 1);
    var es := [first, second];
    var m1 := Happen(m, first);
    assert At(m1, d) == At(m, d);
    var m2 := Happen(m1, second);
    OneEvent(m1, second);
    assert es[1..] == [second];
    assert IsRun(m, es) && After(m, es) == m2;
    assert Generate(m.config, stored, 0).input.rootHash != Generate(m.config, stored, 1).input.rootHash;
  }

  /** Such a state is reached from the start: two lookups of any stored batch but genesis, before either is stored. */
  lemma {:induction false} OverlapFromTheStart(config: Config, stored: StoredBatch)
    requires stored.header.number > 0
    ensures exists es :: IsRun(Fresh(config), es)
                      && DisagreeLast(After(Fresh(config), es).answers, stored.header.number)
  {
    var n, m := stored.header.number, Fresh(config);
    var a, b := Lookup(0, n), Lookup(1, n);
    var m1 := Happen(m, a);
    assert At(m1, 1).Idle?;
    var m2 := Happen(m1, b);
    OverlapCanDisagree(m2, 0, 1, stored);
    var es :| IsRun(m2, es) && DisagreeLast(After(m2, es).answers, n);
    var later, all := [b] + es, [a] + ([b] + es);
    assert later[1..] == es && all[1..] == later;
    assert IsRun(m1, later) && After(m1, later) == After(m2, es);
    assert IsRun(m, all) && After(m, all) == After(m2, es);
  }
}
