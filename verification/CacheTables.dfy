/** What each table of the cache holds after any history of insertions (crates/common/src/cache.rs). */
module CacheTables {
  import opened Wrappers
  import opened CacheFiles
  import opened Cache

  // What an insertion writes into each table: at most one key and its value.

  function AsBlock(full: bool): Insertion -> Option<(Hash, Block)> {
    (op: Insertion) => if op.InsertBlock? && op.full == full then Some((op.key, op.block)) else None
  }

  function AsBlockHash(op: Insertion): Option<(Word, Hash)> {
    if op.InsertBlock? then Some((op.block.number, op.block.hash)) else None
  }

  function AsRawTransactions(op: Insertion): Option<(Word, seq<RawTransaction>)> {
    if op.InsertRawTransactions? then Some((op.number, op.rawTransactions)) else None
  }

  function AsTransaction(op: Insertion): Option<(Hash, Transaction)> {
    if op.InsertTransaction? then Some((op.hash, op.transaction)) else None
  }

  function AsSelector(op: Insertion): Option<(string, string)> {
    if op.InsertSelector? then Some((op.selector, op.value)) else None
  }

  function AsConfirmedTokens(op: Insertion): Option<((nat, nat), seq<Token>)> {
    if op.SetConfirmedTokens? then Some(((op.from, op.limit), op.tokens)) else None
  }

  function AsBridgeAddresses(op: Insertion): Option<((), BridgeAddresses)> {
    if op.SetBridgeAddresses? then Some(((), op.addresses)) else None
  }

  // ---------- The last insertion under a key ----------

  /** Insertion `i` writes under `key`, and none after it does. */
  ghost predicate IsLast<K(!new), V>(
    ops: seq<Insertion>, write: Insertion -> Option<(K, V)>, i: int, key: K)
  {
    && 0 <= i < |ops| && write(ops[i]).Some? && write(ops[i]).value.0 == key
    && forall j :: i < j < |ops| ==> write(ops[j]).None? || write(ops[j]).value.0 != key
  }

  /** The table maps every key to the value inserted last under it, and holds no other key. */
  ghost predicate HoldsLatest<K(!new), V>(
    ops: seq<Insertion>, write: Insertion -> Option<(K, V)>, table: map<K, V>)
  {
    && (forall i, key :: IsLast(ops, write, i, key) ==> key in table && table[key] == write(ops[i]).value.1)
    && (forall key :: key in table ==> exists i :: IsLast(ops, write, i, key))
  }

  lemma {:induction false} IsLastPush<K(!new), V>(
    ops: seq<Insertion>, op: Insertion, write: Insertion -> Option<(K, V)>, i: int, key: K)
    ensures IsLast(ops + [op], write, i, key) <==>
      if write(op).Some? && write(op).value.0 == key then i == |ops| else IsLast(ops, write, i, key)
  {
    var longer := ops + [op];
    assert longer[|ops|] == op && forall j :: 0 <= j < |ops| ==> longer[j] == ops[j];
    if write(op).None? || write(op).value.0 != key {
      if IsLast(ops, write, i, key) {
        forall j | i < j < |longer|
          ensures write(longer[j]).None? || write(longer[j]).value.0 != key
        {
          assert j < |ops| ==> longer[j] == ops[j];
        }
      }
    }
  }

  lemma {:induction false} LatestPush<K(!new), V>(
    ops: seq<Insertion>, op: Insertion, write: Insertion -> Option<(K, V)>, table: map<K, V>, table': map<K, V>)
    requires HoldsLatest(ops, write, table)
    requires table' == if write(op).Some? then table[write(op).value.0 := write(op).value.1] else table
    ensures HoldsLatest(ops + [op], write, table')
  {
    var longer := ops + [op];
    forall i, key | IsLast(longer, write, i, key)
      ensures key in table' && table'[key] == write(longer[i]).value.1
    {
      IsLastPush(ops, op, write, i, key);
    }
    forall key | key in table'
      ensures exists i :: IsLast(longer, write, i, key)
    {
      if write(op).Some? && write(op).value.0 == key {
        IsLastPush(ops, op, write, |ops|, key);
      } else {
        var i :| IsLast(ops, write, i, key);
        IsLastPush(ops, op, write, i, key);
      }
    }
  }

  // ---------- All tables ----------

  /** The bridge addresses as a table with a single key. */
  function BridgeTable(bridge: Option<BridgeAddresses>): map<(), BridgeAddresses> {
    if bridge.Some? then map[() := bridge.value] else map[]
  }

  ghost predicate BlockTablesHoldLatest(ops: seq<Insertion>, m: Memory) {
    && HoldsLatest(ops, AsBlock(true), m.blocksFull) && HoldsLatest(ops, AsBlock(false), m.blocksMin)
    && HoldsLatest(ops, AsBlockHash, m.blockHashes)
  }

  ghost predicate OtherTablesHoldLatest(ops: seq<Insertion>, m: Memory) {
    && HoldsLatest(ops, AsRawTransactions, m.blockRawTransactions)
    && HoldsLatest(ops, AsTransaction, m.transactions) && HoldsLatest(ops, AsSelector, m.resolverSelectors)
    && HoldsLatest(ops, AsConfirmedTokens, m.confirmedTokens)
    && HoldsLatest(ops, AsBridgeAddresses, BridgeTable(m.bridgeAddresses))
  }

  lemma {:induction false} InsertionUpdatesBlocks(config: Config, ops: seq<Insertion>, m: Memory, op: Insertion)
    requires !config.NoCache? && BlockTablesHoldLatest(ops, m)
    ensures BlockTablesHoldLatest(ops + [op], Remember(config, m, op))
  {
    var m' := Remember(config, m, op);
    LatestPush(ops, op, AsBlock(true), m.blocksFull, m'.blocksFull);
    LatestPush(ops, op, AsBlock(false), m.blocksMin, m'.blocksMin);
    LatestPush(ops, op, AsBlockHash, m.blockHashes, m'.blockHashes);
  }

  lemma {:induction false} InsertionUpdatesOthers(config: Config, ops: seq<Insertion>, m: Memory, op: Insertion)
    requires !config.NoCache? && OtherTablesHoldLatest(ops, m)
    ensures OtherTablesHoldLatest(ops + [op], Remember(config, m, op))
  {
    var m' := Remember(config, m, op);
    LatestPush(ops, op, AsRawTransactions, m.blockRawTransactions, m'.blockRawTransactions);
    LatestPush(ops, op, AsTransaction, m.transactions, m'.transactions);
    LatestPush(ops, op, AsSelector, m.resolverSelectors, m'.resolverSelectors);
    LatestPush(ops, op, AsConfirmedTokens, m.confirmedTokens, m'.confirmedTokens);
    InsertionUpdatesBridge(config, ops, m, op);
  }

  lemma {:induction false} InsertionUpdatesBridge(config: Config, ops: seq<Insertion>, m: Memory, op: Insertion)
    requires !config.NoCache? && HoldsLatest(ops, AsBridgeAddresses, BridgeTable(m.bridgeAddresses))
    ensures HoldsLatest(ops + [op], AsBridgeAddresses, BridgeTable(Remember(config, m, op).bridgeAddresses))
  {
    var table, table' := BridgeTable(m.bridgeAddresses), BridgeTable(Remember(config, m, op).bridgeAddresses);
    if op.SetBridgeAddresses? {
      assert table.Keys + {()} == {()};
      assert table' == table[() := op.addresses];
    }
    LatestPush(ops, op, AsBridgeAddresses, table, table');
  }

  /**
    After every history, on disk or in memory only, each table maps each key to the value inserted last under it
    and holds nothing else. Without a cache nothing is ever held, and without a disk nothing is ever written.
   */
  lemma {:induction false} HistoryFillsTables(config: Config, ops: seq<Insertion>)
    ensures !config.NoCache? ==>
      && BlockTablesHoldLatest(ops, RememberAll(config, EMPTY_MEMORY, ops))
      && OtherTablesHoldLatest(ops, RememberAll(config, EMPTY_MEMORY, ops))
    ensures config.NoCache? ==> RememberAll(config, EMPTY_MEMORY, ops) == EMPTY_MEMORY
    ensures !config.OnDisk? ==> PersistAll(config, EMPTY_DISK, ops) == EMPTY_DISK
  {
    if ops != [] {
      var n := |ops| - 1;
      HistoryFillsTables(config, ops[..n]);
      assert ops == ops[..n] + [ops[n]];
      if !config.NoCache? {
        InsertionUpdatesBlocks(config, ops[..n], RememberAll(config, EMPTY_MEMORY, ops[..n]), ops[n]);
        InsertionUpdatesOthers(config, ops[..n], RememberAll(config, EMPTY_MEMORY, ops[..n]), ops[n]);
      }
    }
  }
}
