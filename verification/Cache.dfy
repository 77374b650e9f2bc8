/** The general purpose cache with its optional disk copy (crates/common/src/cache.rs). */
module Cache {
  import opened Wrappers
  import opened CacheFiles

  datatype Block = Block(number: Word, hash: Hash, contents: seq<nat>)

  type RawTransaction = nat

  type Transaction = nat

  type BridgeAddresses = nat

  type Token = nat

  const BRIDGE_ADDRESSES := "bridge_addresses"

  /** The six cache directories; file contents are kept decoded. */
  datatype Disk = Disk(
    blocksFull: map<string, Block>, blocksMin: map<string, Block>,
    blockRawTransactions: map<string, seq<RawTransaction>>, transactions: map<string, Transaction>,
    resolverSelectors: map<string, string>, keyValue: map<string, BridgeAddresses>)

  const EMPTY_DISK := Disk(map[], map[], map[], map[], map[], map[])

  datatype Config = NoCache | MemoryOnly | OnDisk(reset: bool)

  /** The in-memory tables. */
  datatype Memory = Memory(
    blockHashes: map<Word, Hash>, blocksFull: map<Hash, Block>, blocksMin: map<Hash, Block>,
    blockRawTransactions: map<Word, seq<RawTransaction>>, transactions: map<Hash, Transaction>,
    resolverSelectors: map<string, string>, bridgeAddresses: Option<BridgeAddresses>,
    confirmedTokens: map<(nat, nat), seq<Token>>)

  const EMPTY_MEMORY := Memory(map[], map[], map[], map[], map[], map[], None, map[])

  datatype Insertion =
    | InsertBlock(key: Hash, full: bool, block: Block)
    | InsertRawTransactions(number: Word, rawTransactions: seq<RawTransaction>)
    | InsertTransaction(hash: Hash, transaction: Transaction)
    | InsertSelector(selector: string, value: string)
    | SetBridgeAddresses(addresses: BridgeAddresses)
    | SetConfirmedTokens(from: nat, limit: nat, tokens: seq<Token>)

  /** The effect of an insertion on memory. */
  function Remember(config: Config, m: Memory, op: Insertion): Memory {
    if config.NoCache? then m
    else match op
         case InsertBlock(key, full, block) =>
           m.(blockHashes := m.blockHashes[block.number := block.hash],
              blocksFull := if full then m.blocksFull[key := block] else m.blocksFull,
              blocksMin := if full then m.blocksMin else m.blocksMin[key := block])
         case InsertRawTransactions(n, txs) => m.(blockRawTransactions := m.blockRawTransactions[n := txs])
         case InsertTransaction(hash, tx) => m.(transactions := m.transactions[hash := tx])
         case InsertSelector(selector, value) => m.(resolverSelectors := m.resolverSelectors[selector := value])
         case SetBridgeAddresses(addresses) => m.(bridgeAddresses := Some(addresses))
         case SetConfirmedTokens(from, limit, tokens) =>
           m.(confirmedTokens := m.confirmedTokens[(from, limit) := tokens])
  }

  /** The effect of an insertion on the directories. */
  function Persist(config: Config, d: Disk, op: Insertion): Disk {
    if !config.OnDisk? then d
    else match op
         case InsertBlock(key, full, block) =>
           d.(blocksFull := if full then d.blocksFull[HashName(key) := block] else d.blocksFull,
              blocksMin := if full then d.blocksMin else d.blocksMin[HashName(key) := block])
         case InsertRawTransactions(n, txs) =>
           d.(blockRawTransactions := d.blockRawTransactions[NumberName(n) := txs])
         case InsertTransaction(hash, tx) => d.(transactions := d.transactions[HashName(hash) := tx])
         case InsertSelector(selector, value) =>
           d.(resolverSelectors := d.resolverSelectors[TextName(selector) := value])
         case SetBridgeAddresses(addresses) => d.(keyValue := d.keyValue[BRIDGE_ADDRESSES := addresses])
         case SetConfirmedTokens(_, _, _) => d
  }

  /** The order in which the files of each directory are listed. */
  datatype Listing = Listing(
    blocksFull: seq<string>, blocksMin: seq<string>, blockRawTransactions: seq<string>,
    transactions: seq<string>, resolverSelectors: seq<string>, keyValue: seq<string>)

  predicate Listed(l: Listing, d: Disk) {
    && (forall name :: name in l.blocksFull ==> name in d.blocksFull)
    && (forall name :: name in l.blocksMin ==> name in d.blocksMin)
    && (forall name :: name in l.blockRawTransactions ==> name in d.blockRawTransactions)
    && (forall name :: name in l.transactions ==> name in d.transactions)
    && (forall name :: name in l.resolverSelectors ==> name in d.resolverSelectors)
    && (forall name :: name in l.keyValue ==> name in d.keyValue)
  }

  /** Every directory is listed completely and without repetition. */
  ghost predicate Lists(l: Listing, d: Disk) {
    && Enumerates(l.blocksFull, d.blocksFull) && Enumerates(l.blocksMin, d.blocksMin)
    && Enumerates(l.blockRawTransactions, d.blockRawTransactions) && Enumerates(l.transactions, d.transactions)
    && Enumerates(l.resolverSelectors, d.resolverSelectors) && Enumerates(l.keyValue, d.keyValue)
  }

  predicate AllParse(names: seq<string>) { forall i :: 0 <= i < |names| ==> ParseHash(names[i]).Some? }

  /** The block hashes noted while the listed block files are read after `noted`, up to a name that does not parse. */
  function NoteHashes(noted: map<Word, Hash>, files: map<string, Block>, names: seq<string>): map<Word, Hash>
    requires forall name :: name in names ==> name in files
  {
    if names == [] then noted
    else var n := |names| - 1;
         var front := NoteHashes(noted, files, names[..n]);
         if AllParse(names) then front[files[names[n]].number := files[names[n]].hash] else front
  }

  function LoadBridge(files: map<string, BridgeAddresses>, names: seq<string>): Loaded<(), BridgeAddresses>
    requires forall name :: name in names ==> name in files
  {
    if names == [] then Loaded(map[], true)
    else var n := |names| - 1;
         var front := LoadBridge(files, names[..n]);
         if !front.ok then front
         else if names[n] != BRIDGE_ADDRESSES then front.(ok := false)
         else Loaded(map[() := files[names[n]]], true)
  }

  function BridgeIn(entries: map<(), BridgeAddresses>): Option<BridgeAddresses> {
    if () in entries then Some(entries[()]) else None
  }

  /** What a fresh cache holds after reading the directories in turn, and whether it could read them all. */
  datatype Reload = Reload(memory: Memory, ok: bool)

  /** Directories are read in a fixed order; a file name that does not parse ends the reading there. */
  function Reloaded(d: Disk, l: Listing): Reload
    requires Listed(l, d)
  {
    var full := Load(d.blocksFull, ParseHash, l.blocksFull);
    var m1 := EMPTY_MEMORY.(blocksFull := full.entries, blockHashes := NoteHashes(map[], d.blocksFull, l.blocksFull));
    if !full.ok then Reload(m1, false) else
    var min := Load(d.blocksMin, ParseHash, l.blocksMin);
    var m2 := m1.(blocksMin := min.entries, blockHashes := NoteHashes(m1.blockHashes, d.blocksMin, l.blocksMin));
    if !min.ok then Reload(m2, false) else
    var raw := Load(d.blockRawTransactions, ParseNumber, l.blockRawTransactions);
    var m3 := m2.(blockRawTransactions := raw.entries);
    if !raw.ok then Reload(m3, false) else
    var txs := Load(d.transactions, ParseHash, l.transactions);
    var m4 := m3.(transactions := txs.entries);
    if !txs.ok then Reload(m4, false) else
    var selectors := Load(d.resolverSelectors, ParseText, l.resolverSelectors);
    var m5 := m4.(resolverSelectors := selectors.entries);
    if !selectors.ok then Reload(m5, false) else
    var bridge := LoadBridge(d.keyValue, l.keyValue);
    Reload(m5.(bridgeAddresses := BridgeIn(bridge.entries)), bridge.ok)
  }

  class DiskStore {
    var files: Disk

    constructor (files: Disk)
      ensures this.files == files
    {
      this.files := files;
    }
  }

  /** Reads the listed files of one directory until a name does not parse. */
  method ReadDir<K(==), V>(files: map<string, V>, parse: string -> Option<K>, names: seq<string>)
    returns (ok: bool, entries: map<K, V>)
    requires forall name :: name in names ==> name in files
    ensures Loaded(entries, ok) == Load(files, parse, names)
  {
    ok, entries := true, map[];
    for i := 0 to |names|
      invariant Load(files, parse, names[..i]) == Loaded(entries, true)
    {
      assert names[..i + 1][..i] == names[..i];
      var key := parse(names[i]);
      if key.None? {
        LoadStaysFailed(files, parse, names, i + 1);
        return false, entries;
      }
      entries := entries[key.value := files[names[i]]];
    }
    assert names[..|names|] == names;
  }

  /** Once a name has failed to parse, nothing more is read. */
  lemma {:induction false} LoadStaysFailed<K, V>(
    files: map<string, V>, parse: string -> Option<K>, names: seq<string>, n: nat)
    requires n <= |names| && (forall name :: name in names ==> name in files)
    requires !Load(files, parse, names[..n]).ok
    ensures Load(files, parse, names) == Load(files, parse, names[..n])
    decreases |names|
  {
    if n == |names| {
      assert names[..n] == names;
    } else {
      var front := names[..|names| - 1];
      assert front[..n] == names[..n];
      LoadStaysFailed(files, parse, front, n);
    }
  }

  lemma {:induction false} NotingStops(noted: map<Word, Hash>, files: map<string, Block>, names: seq<string>, n: nat)
    requires n < |names| && (forall name :: name in names ==> name in files) && ParseHash(names[n]).None?
    ensures NoteHashes(noted, files, names) == NoteHashes(noted, files, names[..n])
    decreases |names|
  {
    assert !AllParse(names);
    var front := names[..|names| - 1];
    if n < |names| - 1 {
      assert front[..n] == names[..n];
      NotingStops(noted, files, front, n);
    } else {
      assert front == names[..n];
    }
  }

  lemma {:induction false} NotingGoesOn(noted: map<Word, Hash>, files: map<string, Block>, names: seq<string>, n: nat)
    requires n < |names| && (forall name :: name in names ==> name in files)
    requires AllParse(names[..n]) && ParseHash(names[n]).Some? && Load(files, ParseHash, names[..n]).ok
    ensures AllParse(names[..n + 1])
    ensures var block := files[names[n]];
            NoteHashes(noted, files, names[..n + 1]) == NoteHashes(noted, files, names[..n])[block.number := block.hash]
    ensures Load(files, ParseHash, names[..n + 1])
         == Loaded(Load(files, ParseHash, names[..n]).entries[ParseHash(names[n]).value := files[names[n]]], true)
  {
    var longer := names[..n + 1];
    assert longer[..n] == names[..n] && longer[n] == names[n];
    assert forall i :: 0 <= i < n ==> longer[i] == names[..n][i];
  }

  /** Reads one of the two block directories, noting each block's hash by its number. */
  method ReadBlocks(files: map<string, Block>, names: seq<string>, noted: map<Word, Hash>)
    returns (ok: bool, blocks: map<Hash, Block>, hashes: map<Word, Hash>)
    requires forall name :: name in names ==> name in files
    ensures Loaded(blocks, ok) == Load(files, ParseHash, names)
    ensures hashes == NoteHashes(noted, files, names)
  {
    ok, blocks, hashes := true, map[], noted;
    for i := 0 to |names|
      invariant Load(files, ParseHash, names[..i]) == Loaded(blocks, true)
      invariant AllParse(names[..i])
      invariant hashes == NoteHashes(noted, files, names[..i])
    {
      assert names[..i + 1][..i] == names[..i];
      var key := ParseHash(names[i]);
      if key.None? {
        LoadStaysFailed(files, ParseHash, names, i + 1);
        NotingStops(noted, files, names, i);
        return false, blocks, hashes;
      }
      NotingGoesOn(noted, files, names, i);
      var block := files[names[i]];
      hashes := hashes[block.number := block.hash];
      blocks := blocks[key.value := block];
    }
    assert names[..|names|] == names;
  }

  method ReadBridge(files: map<string, BridgeAddresses>, names: seq<string>)
    returns (ok: bool, bridge: Option<BridgeAddresses>)
    requires forall name :: name in names ==> name in files
    ensures ok == LoadBridge(files, names).ok
    ensures bridge == BridgeIn(LoadBridge(files, names).entries)
  {
    ok, bridge := true, None;
    for i := 0 to |names|
      invariant LoadBridge(files, names[..i]).ok && bridge == BridgeIn(LoadBridge(files, names[..i]).entries)
    {
      assert names[..i + 1][..i] == names[..i];
      if names[i] != BRIDGE_ADDRESSES {
        BridgeStaysFailed(files, names, i + 1);
        return false, bridge;
      }
      bridge := Some(files[names[i]]);
    }
    assert names[..|names|] == names;
  }

  lemma {:induction false} BridgeStaysFailed(files: map<string, BridgeAddresses>, names: seq<string>, n: nat)
    requires n <= |names| && (forall name :: name in names ==> name in files)
    requires !LoadBridge(files, names[..n]).ok
    ensures LoadBridge(files, names) == LoadBridge(files, names[..n])
    decreases |names|
  {
    if n == |names| {
      assert names[..n] == names;
    } else {
      var front := names[..|names| - 1];
      assert front[..n] == names[..n];
      BridgeStaysFailed(files, front, n);
    }
  }

  class Cache {
    const config: Config
    const disk: DiskStore
    var blockHashes: map<Word, Hash>
    var blocksFull: map<Hash, Block>
    var blocksMin: map<Hash, Block>
    var blockRawTransactions: map<Word, seq<RawTransaction>>
    var transactions: map<Hash, Transaction>
    var resolverSelectors: map<string, string>
    var bridgeAddresses: Option<BridgeAddresses>
    var confirmedTokens: map<(nat, nat), seq<Token>>

    function Contents(): Memory
      reads this
    {
      Memory(blockHashes, blocksFull, blocksMin, blockRawTransactions, transactions, resolverSelectors,
             bridgeAddresses, confirmedTokens)
    }

    /** Starts from what the directories hold, read in the order `listing`, unless told to reset them. */
    constructor (config: Config, disk: DiskStore, listing: Listing)
      requires Lists(listing, if config.OnDisk? && !config.reset then disk.files else EMPTY_DISK)
      modifies disk
      ensures this.config == config && this.disk == disk
      ensures disk.files == if config.OnDisk? && config.reset then EMPTY_DISK else old(disk.files)
      ensures !config.OnDisk? ==> Contents() == EMPTY_MEMORY
      ensures config.OnDisk? ==> Listed(listing, disk.files) && Contents() == Reloaded(disk.files, listing).memory
    {
      this.config, this.disk := config, disk;
      blockHashes, blocksFull, blocksMin, blockRawTransactions := map[], map[], map[], map[];
      transactions, resolverSelectors, bridgeAddresses, confirmedTokens := map[], map[], None, map[];
      new;
      if config.OnDisk? {
        if config.reset {
          disk.files := EMPTY_DISK;
        }
        ReadAllFromDisk(listing);
      }
    }

    /** Fills the empty tables directory by directory, up to the first file name that does not parse. */
    method ReadAllFromDisk(l: Listing)
      requires Lists(l, disk.files) && Contents() == EMPTY_MEMORY
      modifies this
      ensures Listed(l, disk.files) && Contents() == Reloaded(disk.files, l).memory
    {
      var ok;
      ok, blocksFull, blockHashes := ReadBlocks(disk.files.blocksFull, l.blocksFull, blockHashes);
      if !ok { return; }
      ok, blocksMin, blockHashes := ReadBlocks(disk.files.blocksMin, l.blocksMin, blockHashes);
      if !ok { return; }
      ok, blockRawTransactions := ReadDir(disk.files.blockRawTransactions, ParseNumber, l.blockRawTransactions);
      if !ok { return; }
      ok, transactions := ReadDir(disk.files.transactions, ParseHash, l.transactions);
      if !ok { return; }
      ok, resolverSelectors := ReadDir(disk.files.resolverSelectors, ParseText, l.resolverSelectors);
      if !ok { return; }
      ok, bridgeAddresses := ReadBridge(disk.files.keyValue, l.keyValue);
    }

    /** Any of the six inserting operations; writes through to disk first. */
    method Insert(op: Insertion)
      modifies this, disk
      ensures Contents() == Remember(config, old(Contents()), op)
      ensures disk.files == Persist(config, old(disk.files), op)
    {
      if config.NoCache? {
        return;
      }
      var onDisk, d := config.OnDisk?, disk.files;
      match op {
        case InsertBlock(key, full, block) =>
          blockHashes := blockHashes[block.number := block.hash];
          if full {
            if onDisk { disk.files := d.(blocksFull := d.blocksFull[HashName(key) := block]); }
            blocksFull := blocksFull[key := block];
          } else {
            if onDisk { disk.files := d.(blocksMin := d.blocksMin[HashName(key) := block]); }
            blocksMin := blocksMin[key := block];
          }
        case InsertRawTransactions(n, txs) =>
          if onDisk { disk.files := d.(blockRawTransactions := d.blockRawTransactions[NumberName(n) := txs]); }
          blockRawTransactions := blockRawTransactions[n := txs];
        case InsertTransaction(hash, tx) =>
          if onDisk { disk.files := d.(transactions := d.transactions[HashName(hash) := tx]); }
          transactions := transactions[hash := tx];
        case InsertSelector(selector, value) =>
          if onDisk { disk.files := d.(resolverSelectors := d.resolverSelectors[TextName(selector) := value]); }
          resolverSelectors := resolverSelectors[selector := value];
        case SetBridgeAddresses(addresses) =>
          if onDisk { disk.files := d.(keyValue := d.keyValue[BRIDGE_ADDRESSES := addresses]); }
          bridgeAddresses := Some(addresses);
        case SetConfirmedTokens(from, limit, tokens) =>
          confirmedTokens := confirmedTokens[(from, limit) := tokens];
      }
    }
  }

  // ---------- Reload agrees with memory ----------

  function BridgeFiles(bridge: Option<BridgeAddresses>): map<string, BridgeAddresses> {
    if bridge.Some? then map[BRIDGE_ADDRESSES := bridge.value] else map[]
  }

  /** Every table but block hashes and confirmed tokens corresponds to its directory. */
  ghost predicate Coherent(m: Memory, d: Disk) {
    && Mirrors(m.blocksFull, d.blocksFull, ParseHash, HashName)
    && Mirrors(m.blocksMin, d.blocksMin, ParseHash, HashName)
    && Mirrors(m.blockRawTransactions, d.blockRawTransactions, ParseNumber, NumberName)
    && Mirrors(m.transactions, d.transactions, ParseHash, HashName)
    && Mirrors(m.resolverSelectors, d.resolverSelectors, ParseText, TextName)
    && d.keyValue == BridgeFiles(m.bridgeAddresses)
  }

  lemma {:induction false} NamesRoundTrip()
    ensures RoundTrips(ParseHash, HashName) && RoundTrips(ParseNumber, NumberName) && RoundTrips(ParseText, TextName)
  {
    forall h: Hash
      ensures ParseHash(HashName(h)) == Some(h)
    {
      HashNameRoundTrip(h);
    }
    forall n: Word
      ensures ParseNumber(NumberName(n)) == Some(n)
    {
      NumberNameRoundTrip(n);
    }
  }

  lemma {:induction false} InsertKeepsCoherence(m: Memory, d: Disk, op: Insertion, config: Config)
    requires Coherent(m, d) && config.OnDisk?
    ensures Coherent(Remember(config, m, op), Persist(config, d, op))
  {
    match op
    case InsertBlock(key, full, block) => BlockKeepsCoherence(m, d, key, full, block, config);
    case InsertRawTransactions(n, txs) => RawKeepsCoherence(m, d, n, txs, config);
    case InsertTransaction(hash, tx) => TransactionKeepsCoherence(m, d, hash, tx, config);
    case InsertSelector(selector, value) => SelectorKeepsCoherence(m, d, selector, value, config);
    case SetBridgeAddresses(addresses) => BridgeKeepsCoherence(m, d, addresses, config);
    case SetConfirmedTokens(from, limit, tokens) =>
      SameTables(m, Remember(config, m, op), d);
  }

  lemma {:induction false} SameTables(m: Memory, m': Memory, d: Disk)
    requires Coherent(m, d) && m' == m.(confirmedTokens := m'.confirmedTokens)
    ensures Coherent(m', d)
  {
  }

  lemma {:induction false} BridgeKeepsCoherence(m: Memory, d: Disk, addresses: BridgeAddresses, config: Config)
    requires Coherent(m, d) && config.OnDisk?
    ensures Coherent(Remember(config, m, SetBridgeAddresses(addresses)),
                     Persist(config, d, SetBridgeAddresses(addresses)))
  {
    OverwriteBridge(d.keyValue, m.bridgeAddresses, addresses);
  }

  lemma {:induction false} OverwriteBridge(
    files: map<string, BridgeAddresses>, bridge: Option<BridgeAddresses>, addresses: BridgeAddresses)
    requires files == BridgeFiles(bridge)
    ensures files[BRIDGE_ADDRESSES := addresses] == BridgeFiles(Some(addresses))
  {
  }

  lemma {:induction false} BlockKeepsCoherence(m: Memory, d: Disk, key: Hash, full: bool, block: Block, config: Config)
    requires Coherent(m, d) && config.OnDisk?
    ensures Coherent(Remember(config, m, InsertBlock(key, full, block)),
                     Persist(config, d, InsertBlock(key, full, block)))
  {
    if full {
      assert Mirrors(m.blocksFull[key := block], d.blocksFull[HashName(key) := block], ParseHash, HashName) by {
        NamesRoundTrip();
        InsertKeepsMirror(m.blocksFull, d.blocksFull, ParseHash, HashName, key, block);
      }
    } else {
      assert Mirrors(m.blocksMin[key := block], d.blocksMin[HashName(key) := block], ParseHash, HashName) by {
        NamesRoundTrip();
        InsertKeepsMirror(m.blocksMin, d.blocksMin, ParseHash, HashName, key, block);
      }
    }
  }

  lemma {:induction false} RawKeepsCoherence(m: Memory, d: Disk, n: Word, txs: seq<RawTransaction>, config: Config)
    requires Coherent(m, d) && config.OnDisk?
    ensures Coherent(Remember(config, m, InsertRawTransactions(n, txs)),
                     Persist(config, d, InsertRawTransactions(n, txs)))
  {
    NamesRoundTrip();
    InsertKeepsMirror(m.blockRawTransactions, d.blockRawTransactions, ParseNumber, NumberName, n, txs);
  }

  lemma {:induction false} TransactionKeepsCoherence(m: Memory, d: Disk, hash: Hash, tx: Transaction, config: Config)
    requires Coherent(m, d) && config.OnDisk?
    ensures Coherent(Remember(config, m, InsertTransaction(hash, tx)),
                     Persist(config, d, InsertTransaction(hash, tx)))
  {
    NamesRoundTrip();
    InsertKeepsMirror(m.transactions, d.transactions, ParseHash, HashName, hash, tx);
  }

  lemma {:induction false} SelectorKeepsCoherence(m: Memory, d: Disk, selector: string, value: string, config: Config)
    requires Coherent(m, d) && config.OnDisk?
    ensures Coherent(Remember(config, m, InsertSelector(selector, value)),
                     Persist(config, d, InsertSelector(selector, value)))
  {
    NamesRoundTrip();
    InsertKeepsMirror(m.resolverSelectors, d.resolverSelectors, ParseText, TextName, selector, value);
  }

  lemma {:induction false} LoadBridgeBack(d: Disk, bridge: Option<BridgeAddresses>, names: seq<string>)
    requires d.keyValue == BridgeFiles(bridge)
    requires Enumerates(names, d.keyValue)
    ensures LoadBridge(d.keyValue, names).ok && BridgeIn(LoadBridge(d.keyValue, names).entries) == bridge
  {
    assert forall i :: 0 <= i < |names| ==> names[i] in names;
    LoadOnlyBridge(d.keyValue, names);
    assert bridge.Some? ==> BRIDGE_ADDRESSES in names;
  }

  lemma {:induction false} LoadOnlyBridge(files: map<string, BridgeAddresses>, names: seq<string>)
    requires forall i :: 0 <= i < |names| ==> names[i] == BRIDGE_ADDRESSES && names[i] in files
    ensures LoadBridge(files, names) == Loaded(if names == [] then map[] else map[() := files[names[0]]], true)
  {
    if names != [] {
      LoadOnlyBridge(files, names[..|names| - 1]);
    }
  }

  /** For every listing order a reload succeeds and gives back every coherent table. */
  lemma {:induction false} ReloadIsFaithful(m: Memory, d: Disk, l: Listing)
    requires Coherent(m, d) && Lists(l, d)
    ensures Reloaded(d, l)
         == Reload(m.(blockHashes := ReloadedHashes(d, l.blocksFull, l.blocksMin), confirmedTokens := map[]), true)
  {
    NamesRoundTrip();
    LoadGivesMirror(m.blocksFull, d.blocksFull, ParseHash, HashName, l.blocksFull);
    LoadGivesMirror(m.blocksMin, d.blocksMin, ParseHash, HashName, l.blocksMin);
    LoadGivesMirror(m.blockRawTransactions, d.blockRawTransactions, ParseNumber, NumberName, l.blockRawTransactions);
    LoadGivesMirror(m.transactions, d.transactions, ParseHash, HashName, l.transactions);
    LoadGivesMirror(m.resolverSelectors, d.resolverSelectors, ParseText, TextName, l.resolverSelectors);
    LoadBridgeBack(d, m.bridgeAddresses, l.keyValue);
  }

  // ---------- When the block hashes survive a reload ----------

  ghost predicate Carried(files: map<string, Block>, n: Word) {
    exists name :: name in files && files[name].number == n
  }

  ghost predicate AllCarry(files: map<string, Block>, n: Word, h: Hash) {
    forall name :: name in files && files[name].number == n ==> files[name].hash == h
  }

  /**
    Each known number is carried by block files, and those that are read last for it (the minimal
    ones, or the full ones where there is no minimal one) all carry the remembered hash.
   */
  ghost predicate HashesAgree(hashes: map<Word, Hash>, d: Disk) {
    forall n: Word :: AgreesAt(hashes, d, n)
  }

  ghost predicate AgreesAt(hashes: map<Word, Hash>, d: Disk, n: Word) {
    && (n in hashes <==> Carried(d.blocksMin, n) || Carried(d.blocksFull, n))
    && (Carried(d.blocksMin, n) ==> AllCarry(d.blocksMin, n, hashes[n]))
    && (!Carried(d.blocksMin, n) && Carried(d.blocksFull, n) ==> AllCarry(d.blocksFull, n, hashes[n]))
  }

  /** All block files have names that parse, as those written by the cache do. */
  ghost predicate NamesValid(d: Disk) {
    && (forall name :: name in d.blocksFull ==> ParseHash(name).Some?)
    && (forall name :: name in d.blocksMin ==> ParseHash(name).Some?)
  }

  ghost function ReloadedHashes(d: Disk, full: seq<string>, min: seq<string>): map<Word, Hash>
    requires Enumerates(full, d.blocksFull) && Enumerates(min, d.blocksMin)
  {
    NoteHashes(NoteHashes(map[], d.blocksFull, full), d.blocksMin, min)
  }

  /** A number is noted by the last listed file that carries it, or was noted before. */
  lemma {:induction false} NoteHashesSpec(
    noted: map<Word, Hash>, files: map<string, Block>, names: seq<string>, n: Word)
    requires (forall name :: name in names ==> name in files) && AllParse(names)
    ensures var r := NoteHashes(noted, files, names);
            && ((forall name :: name in names ==> files[name].number != n) ==>
                 (n in r <==> n in noted) && (n in noted ==> r[n] == noted[n]))
            && (forall name :: name in names && files[name].number == n ==>
                 n in r && exists other :: other in names && files[other].number == n && files[other].hash == r[n])
  {
    if names != [] {
      var k := |names| - 1;
      NoteHashesSpec(noted, files, names[..k], n);
      assert names == names[..k] + [names[k]];
      assert names[k] in names;
      assert forall name :: name in names[..k] ==> name in names;
    }
  }

  lemma {:induction false} ListedNamesParse(d: Disk, full: seq<string>, min: seq<string>)
    requires NamesValid(d) && Enumerates(full, d.blocksFull) && Enumerates(min, d.blocksMin)
    ensures AllParse(full) && AllParse(min)
  {
    assert forall i :: 0 <= i < |full| ==> full[i] in full;
    assert forall i :: 0 <= i < |min| ==> min[i] in min;
  }

  lemma {:induction false} ReloadedHashesAt(d: Disk, full: seq<string>, min: seq<string>, n: Word)
    requires NamesValid(d) && Enumerates(full, d.blocksFull) && Enumerates(min, d.blocksMin)
    ensures var r := ReloadedHashes(d, full, min);
            && (n in r <==> Carried(d.blocksMin, n) || Carried(d.blocksFull, n))
            && (Carried(d.blocksMin, n) ==>
                 exists name :: name in d.blocksMin && d.blocksMin[name].number == n
                                && d.blocksMin[name].hash == r[n])
            && (!Carried(d.blocksMin, n) && Carried(d.blocksFull, n) ==>
                 exists name :: name in d.blocksFull && d.blocksFull[name].number == n
                                && d.blocksFull[name].hash == r[n])
  {
    ListedNamesParse(d, full, min);
    NoteHashesSpec(map[], d.blocksFull, full, n);
    NoteHashesSpec(NoteHashes(map[], d.blocksFull, full), d.blocksMin, min, n);
    if Carried(d.blocksMin, n) {
      var name :| name in d.blocksMin && d.blocksMin[name].number == n;
      assert name in min;
    }
    if Carried(d.blocksFull, n) {
      var name :| name in d.blocksFull && d.blocksFull[name].number == n;
      assert name in full;
    }
  }

  lemma {:induction false} AgreeImpliesReload(hashes: map<Word, Hash>, d: Disk, full: seq<string>, min: seq<string>)
    requires NamesValid(d) && HashesAgree(hashes, d) && Enumerates(full, d.blocksFull) && Enumerates(min, d.blocksMin)
    ensures ReloadedHashes(d, full, min) == hashes
  {
    var r := ReloadedHashes(d, full, min);
    forall n: Word
      ensures n in r <==> n in hashes
      ensures n in r ==> r[n] == hashes[n]
    {
      ReloadedHashesAt(d, full, min, n);
      assert AgreesAt(hashes, d, n);
    }
    assert r.Keys == hashes.Keys;
  }

  /** The file read last decides. */
  lemma {:induction false} LastFileDecides(noted: map<Word, Hash>, files: map<string, Block>, names: seq<string>)
    requires names != [] && (forall name :: name in names ==> name in files) && AllParse(names)
    ensures var last := files[names[|names| - 1]];
            last.number in NoteHashes(noted, files, names) && NoteHashes(noted, files, names)[last.number] == last.hash
  {
  }

  lemma {:induction false} ReloadImpliesAgree(hashes: map<Word, Hash>, d: Disk)
    requires NamesValid(d)
    requires forall full, min :: Enumerates(full, d.blocksFull) && Enumerates(min, d.blocksMin) ==>
      ReloadedHashes(d, full, min) == hashes
    ensures HashesAgree(hashes, d)
  {
    var full := SomeListing(d.blocksFull.Keys);
    var min := SomeListing(d.blocksMin.Keys);
    assert Enumerates(full, d.blocksFull) && Enumerates(min, d.blocksMin);
    forall n: Word
      ensures n in hashes <==> Carried(d.blocksMin, n) || Carried(d.blocksFull, n)
      ensures Carried(d.blocksMin, n) ==> AllCarry(d.blocksMin, n, hashes[n])
      ensures !Carried(d.blocksMin, n) && Carried(d.blocksFull, n) ==> AllCarry(d.blocksFull, n, hashes[n])
    {
      ReloadedHashesAt(d, full, min, n);
      forall name | name in d.blocksMin && d.blocksMin[name].number == n
        ensures d.blocksMin[name].hash == hashes[n]
      {
        var min' := ListingEndingWith(d.blocksMin, name);
        ListedNamesParse(d, full, min');
        LastFileDecides(NoteHashes(map[], d.blocksFull, full), d.blocksMin, min');
        assert ReloadedHashes(d, full, min') == hashes;
      }
      if !Carried(d.blocksMin, n) {
        forall name | name in d.blocksFull && d.blocksFull[name].number == n
          ensures d.blocksFull[name].hash == hashes[n]
        {
          var full' := ListingEndingWith(d.blocksFull, name);
          ListedNamesParse(d, full', min);
          LastFileDecides(map[], d.blocksFull, full');
          NoteHashesSpec(NoteHashes(map[], d.blocksFull, full'), d.blocksMin, min, n);
          assert ReloadedHashes(d, full', min) == hashes;
        }
      }
    }
  }

  /** Every listing order reloads the remembered block hashes if and only if the block files agree on them. */
  lemma {:induction false} HashesSurviveIff(hashes: map<Word, Hash>, d: Disk)
    requires NamesValid(d)
    ensures (forall full, min :: Enumerates(full, d.blocksFull) && Enumerates(min, d.blocksMin) ==>
               ReloadedHashes(d, full, min) == hashes)
            <==> HashesAgree(hashes, d)
  {
    if HashesAgree(hashes, d) {
      forall full, min | Enumerates(full, d.blocksFull) && Enumerates(min, d.blocksMin)
        ensures ReloadedHashes(d, full, min) == hashes
      {
        AgreeImpliesReload(hashes, d, full, min);
      }
    }
    if forall full, min :: Enumerates(full, d.blocksFull) && Enumerates(min, d.blocksMin) ==>
         ReloadedHashes(d, full, min) == hashes {
      ReloadImpliesAgree(hashes, d);
    }
  }

  // ---------- Whole histories ----------

  function RememberAll(config: Config, m: Memory, ops: seq<Insertion>): Memory {
    if ops == [] then m else Remember(config, RememberAll(config, m, ops[..|ops| - 1]), ops[|ops| - 1])
  }

  function PersistAll(config: Config, d: Disk, ops: seq<Insertion>): Disk {
    if ops == [] then d else Persist(config, PersistAll(config, d, ops[..|ops| - 1]), ops[|ops| - 1])
  }

  function FilesOf(d: Disk, full: bool): map<string, Block> { if full then d.blocksFull else d.blocksMin }

  predicate SameFile(a: Insertion, b: Insertion) {
    a.InsertBlock? && b.InsertBlock? && a.full == b.full && a.key == b.key
  }

  predicate SameNumber(a: Insertion, b: Insertion) {
    a.InsertBlock? && b.InsertBlock? && a.block.number == b.block.number
  }

  /** Insertion `j` is the last one under its kind and key, so its block is still in its file. */
  ghost predicate Survives(ops: seq<Insertion>, j: int) {
    0 <= j < |ops| && ops[j].InsertBlock? && forall k :: j < k < |ops| ==> !SameFile(ops[k], ops[j])
  }

  /** Insertion `i` is the last one of its block number, so its hash is the remembered one. */
  ghost predicate Newest(ops: seq<Insertion>, i: int) {
    0 <= i < |ops| && ops[i].InsertBlock? && forall k :: i < k < |ops| ==> !SameNumber(ops[k], ops[i])
  }

  ghost predicate Carries(ops: seq<Insertion>, j: int, n: Word) { Survives(ops, j) && ops[j].block.number == n }

  /** Some surviving block of the kind has number `n`. */
  ghost predicate SomeSurvives(ops: seq<Insertion>, full: bool, n: Word) {
    exists j :: Carries(ops, j, n) && ops[j].full == full
  }

  /** All surviving blocks of the kind and number carry hash `h`. */
  ghost predicate SurvivorsCarry(ops: seq<Insertion>, full: bool, n: Word, h: Hash) {
    forall j :: Carries(ops, j, n) && ops[j].full == full ==> ops[j].block.hash == h
  }

  /** Number `n` survives, with hash `h` wherever it may be read last: minimal blocks if any, else full ones. */
  ghost predicate NumberSurvives(ops: seq<Insertion>, n: Word, h: Hash) {
    if SomeSurvives(ops, false, n) then SurvivorsCarry(ops, false, n, h)
    else SomeSurvives(ops, true, n) && SurvivorsCarry(ops, true, n, h)
  }

  /** The condition on a history, in terms of its insertions alone. */
  ghost predicate SurvivorsAgree(ops: seq<Insertion>) {
    forall i :: Newest(ops, i) ==> NumberSurvives(ops, ops[i].block.number, ops[i].block.hash)
  }

  // ---------- Files hold the survivors, hashes are the newest ----------

  ghost predicate HoldsSurvivors(ops: seq<Insertion>, files: map<string, Block>, full: bool) {
    && (forall j :: Survives(ops, j) && ops[j].full == full ==>
          HashName(ops[j].key) in files && files[HashName(ops[j].key)] == ops[j].block)
    && (forall name :: name in files ==>
          exists j :: Survives(ops, j) && ops[j].full == full && HashName(ops[j].key) == name)
  }

  ghost predicate NotesNewest(ops: seq<Insertion>, hashes: map<Word, Hash>) {
    && (forall i :: Newest(ops, i) ==>
          ops[i].block.number in hashes && hashes[ops[i].block.number] == ops[i].block.hash)
    && (forall n :: n in hashes ==> exists i :: Newest(ops, i) && ops[i].block.number == n)
  }

  lemma {:induction false} SurvivesPush(ops: seq<Insertion>, j: int)
    requires ops != []
    ensures var k := |ops| - 1;
            Survives(ops, j) <==>
              (j == k && ops[k].InsertBlock?) || (Survives(ops[..k], j) && !SameFile(ops[k], ops[j]))
  {
    var k := |ops| - 1;
    assert forall i :: 0 <= i < k ==> ops[..k][i] == ops[i];
    if 0 <= j < k && Survives(ops[..k], j) && !SameFile(ops[k], ops[j]) {
      assert forall i :: j < i < k ==> !SameFile(ops[..k][i], ops[j]);
    }
  }

  lemma {:induction false} NewestPush(ops: seq<Insertion>, j: int)
    requires ops != []
    ensures var k := |ops| - 1;
            Newest(ops, j) <==>
              (j == k && ops[k].InsertBlock?) || (Newest(ops[..k], j) && !SameNumber(ops[k], ops[j]))
  {
    var k := |ops| - 1;
    assert forall i :: 0 <= i < k ==> ops[..k][i] == ops[i];
    if 0 <= j < k && Newest(ops[..k], j) && !SameNumber(ops[k], ops[j]) {
      assert forall i :: j < i < k ==> !SameNumber(ops[..k][i], ops[j]);
    }
  }

  lemma {:induction false} SurvivorsGrow(
    ops: seq<Insertion>, files: map<string, Block>, files': map<string, Block>, full: bool)
    requires ops != [] && HoldsSurvivors(ops[..|ops| - 1], files, full)
    requires var op := ops[|ops| - 1];
             files' == if op.InsertBlock? && op.full == full then files[HashName(op.key) := op.block] else files
    ensures HoldsSurvivors(ops, files', full)
  {
    var k := |ops| - 1;
    var before, op := ops[..k], ops[k];
    forall j | Survives(ops, j) && ops[j].full == full
      ensures HashName(ops[j].key) in files' && files'[HashName(ops[j].key)] == ops[j].block
    {
      SurvivesPush(ops, j);
      if j < k {
        assert before[j] == ops[j];
        if op.InsertBlock? {
          HashNameInjective(op.key, ops[j].key);
        }
      }
    }
    forall name | name in files'
      ensures exists j :: Survives(ops, j) && ops[j].full == full && HashName(ops[j].key) == name
    {
      if op.InsertBlock? && op.full == full && name == HashName(op.key) {
        SurvivesPush(ops, k);
      } else {
        var j :| Survives(before, j) && before[j].full == full && HashName(before[j].key) == name;
        SurvivesPush(ops, j);
        assert Survives(ops, j) && ops[j] == before[j];
      }
    }
  }

  lemma {:induction false} NewestGrow(ops: seq<Insertion>, hashes: map<Word, Hash>, hashes': map<Word, Hash>)
    requires ops != [] && NotesNewest(ops[..|ops| - 1], hashes)
    requires var op := ops[|ops| - 1];
             hashes' == if op.InsertBlock? then hashes[op.block.number := op.block.hash] else hashes
    ensures NotesNewest(ops, hashes')
  {
    var k := |ops| - 1;
    var before, op := ops[..k], ops[k];
    forall i | Newest(ops, i)
      ensures ops[i].block.number in hashes' && hashes'[ops[i].block.number] == ops[i].block.hash
    {
      NewestPush(ops, i);
      assert i < k ==> before[i] == ops[i];
    }
    forall n | n in hashes'
      ensures exists i :: Newest(ops, i) && ops[i].block.number == n
    {
      if op.InsertBlock? && op.block.number == n {
        NewestPush(ops, k);
      } else {
        var i :| Newest(before, i) && before[i].block.number == n;
        NewestPush(ops, i);
        assert Newest(ops, i) && ops[i] == before[i];
      }
    }
  }

  lemma {:induction false} NotedByNumber(op: Insertion, m: Memory)
    ensures Remember(OnDisk(false), m, op).blockHashes
         == if op.InsertBlock? then m.blockHashes[op.block.number := op.block.hash] else m.blockHashes
  {
  }

  lemma {:induction false} WrittenByKind(op: Insertion, d: Disk, full: bool)
    ensures FilesOf(Persist(OnDisk(false), d, op), full)
         == if op.InsertBlock? && op.full == full then FilesOf(d, full)[HashName(op.key) := op.block]
            else FilesOf(d, full)
  {
  }

  lemma {:induction false} HistoryHashes(ops: seq<Insertion>)
    ensures NotesNewest(ops, RememberAll(OnDisk(false), EMPTY_MEMORY, ops).blockHashes)
  {
    if ops != [] {
      var k := |ops| - 1;
      HistoryHashes(ops[..k]);
      var before := RememberAll(OnDisk(false), EMPTY_MEMORY, ops[..k]);
      NotedByNumber(ops[k], before);
      NewestGrow(ops, before.blockHashes, RememberAll(OnDisk(false), EMPTY_MEMORY, ops).blockHashes);
    }
  }

  lemma {:induction false} HistoryFiles(ops: seq<Insertion>, full: bool)
    ensures HoldsSurvivors(ops, FilesOf(PersistAll(OnDisk(false), EMPTY_DISK, ops), full), full)
  {
    if ops != [] {
      var k := |ops| - 1;
      HistoryFiles(ops[..k], full);
      var before := PersistAll(OnDisk(false), EMPTY_DISK, ops[..k]);
      WrittenByKind(ops[k], before, full);
      SurvivorsGrow(ops, FilesOf(before, full), FilesOf(PersistAll(OnDisk(false), EMPTY_DISK, ops), full), full);
    }
  }

  // ---------- The condition on files is the condition on insertions ----------

  lemma {:induction false} CarriedIff(ops: seq<Insertion>, files: map<string, Block>, full: bool, n: Word)
    requires HoldsSurvivors(ops, files, full)
    ensures Carried(files, n) <==> SomeSurvives(ops, full, n)
  {
    if Carried(files, n) {
      var name :| name in files && files[name].number == n;
      var j :| Survives(ops, j) && ops[j].full == full && HashName(ops[j].key) == name;
      assert Carries(ops, j, n);
    }
    if SomeSurvives(ops, full, n) {
      var j :| Carries(ops, j, n) && ops[j].full == full;
      assert files[HashName(ops[j].key)].number == n;
    }
  }

  lemma {:induction false} AllCarryIff(ops: seq<Insertion>, files: map<string, Block>, full: bool, n: Word, h: Hash)
    requires HoldsSurvivors(ops, files, full)
    ensures AllCarry(files, n, h) <==> SurvivorsCarry(ops, full, n, h)
  {
    if AllCarry(files, n, h) {
      forall j | Carries(ops, j, n) && ops[j].full == full
        ensures ops[j].block.hash == h
      {
        assert files[HashName(ops[j].key)] == ops[j].block;
      }
    }
    if SurvivorsCarry(ops, full, n, h) {
      forall name | name in files && files[name].number == n
        ensures files[name].hash == h
      {
        var j :| Survives(ops, j) && ops[j].full == full && HashName(ops[j].key) == name;
        assert Carries(ops, j, n);
      }
    }
  }

  /** Among the insertions from `i` on there is a last one of the same number. */
  lemma {:induction false} SomeNewest(ops: seq<Insertion>, i: nat) returns (k: nat)
    requires i < |ops| && ops[i].InsertBlock?
    ensures Newest(ops, k) && ops[k].block.number == ops[i].block.number
    decreases |ops| - i
  {
    k := i;
    if !Newest(ops, i) {
      var j :| i < j < |ops| && SameNumber(ops[j], ops[i]);
      k := SomeNewest(ops, j);
    }
  }

  /** Among the insertions from `i` on there is a last one under the same kind and key. */
  lemma {:induction false} SomeSurvivor(ops: seq<Insertion>, i: nat) returns (k: nat)
    requires i < |ops| && ops[i].InsertBlock?
    ensures Survives(ops, k) && SameFile(ops[k], ops[i])
    decreases |ops| - i
  {
    k := i;
    if !Survives(ops, i) {
      var j :| i < j < |ops| && SameFile(ops[j], ops[i]);
      k := SomeSurvivor(ops, j);
    }
  }

  /** The two kinds of block files, condition by condition. */
  ghost predicate Reflects(ops: seq<Insertion>, d: Disk, n: Word) {
    && (Carried(d.blocksFull, n) <==> SomeSurvives(ops, true, n))
    && (Carried(d.blocksMin, n) <==> SomeSurvives(ops, false, n))
  }

  lemma {:induction false} FilesReflect(ops: seq<Insertion>, d: Disk, n: Word)
    requires HoldsSurvivors(ops, d.blocksFull, true) && HoldsSurvivors(ops, d.blocksMin, false)
    ensures Reflects(ops, d, n)
  {
    CarriedIff(ops, d.blocksFull, true, n);
    CarriedIff(ops, d.blocksMin, false, n);
  }

  lemma {:induction false} FilesReflectHash(ops: seq<Insertion>, d: Disk, n: Word, h: Hash)
    requires HoldsSurvivors(ops, d.blocksFull, true) && HoldsSurvivors(ops, d.blocksMin, false)
    ensures AllCarry(d.blocksFull, n, h) <==> SurvivorsCarry(ops, true, n, h)
    ensures AllCarry(d.blocksMin, n, h) <==> SurvivorsCarry(ops, false, n, h)
  {
    AllCarryIff(ops, d.blocksFull, true, n, h);
    AllCarryIff(ops, d.blocksMin, false, n, h);
  }

  /** What agreement means for one number the history has inserted. */
  lemma {:induction false} AgreesAtIff(ops: seq<Insertion>, hashes: map<Word, Hash>, d: Disk, n: Word)
    requires Reflects(ops, d, n) && n in hashes
    requires AllCarry(d.blocksFull, n, hashes[n]) <==> SurvivorsCarry(ops, true, n, hashes[n])
    requires AllCarry(d.blocksMin, n, hashes[n]) <==> SurvivorsCarry(ops, false, n, hashes[n])
    ensures AgreesAt(hashes, d, n) <==> NumberSurvives(ops, n, hashes[n])
  {
  }

  /** A surviving number is a remembered one. */
  lemma {:induction false} SurvivorsAreKnown(ops: seq<Insertion>, hashes: map<Word, Hash>, full: bool, n: Word)
    requires NotesNewest(ops, hashes) && SomeSurvives(ops, full, n)
    ensures n in hashes
  {
    var j :| Carries(ops, j, n) && ops[j].full == full;
    var i := SomeNewest(ops, j);
  }

  /** Files and hashes agree on a number that is not remembered: no file carries it. */
  lemma {:induction false} AgreesOnUnknown(ops: seq<Insertion>, hashes: map<Word, Hash>, d: Disk, n: Word)
    requires Reflects(ops, d, n) && NotesNewest(ops, hashes) && n !in hashes
    ensures AgreesAt(hashes, d, n)
  {
    if SomeSurvives(ops, true, n) {
      SurvivorsAreKnown(ops, hashes, true, n);
    }
    if SomeSurvives(ops, false, n) {
      SurvivorsAreKnown(ops, hashes, false, n);
    }
  }

  lemma {:induction false} AgreesOnKnown(ops: seq<Insertion>, hashes: map<Word, Hash>, d: Disk, i: nat)
    requires HoldsSurvivors(ops, d.blocksFull, true) && HoldsSurvivors(ops, d.blocksMin, false)
    requires NotesNewest(ops, hashes) && Newest(ops, i)
    ensures AgreesAt(hashes, d, ops[i].block.number)
       <==> NumberSurvives(ops, ops[i].block.number, ops[i].block.hash)
  {
    var n, h := ops[i].block.number, ops[i].block.hash;
    FilesReflect(ops, d, n);
    FilesReflectHash(ops, d, n, h);
    AgreesAtIff(ops, hashes, d, n);
  }

  lemma {:induction false} AgreesIff(ops: seq<Insertion>, hashes: map<Word, Hash>, d: Disk)
    requires HoldsSurvivors(ops, d.blocksFull, true) && HoldsSurvivors(ops, d.blocksMin, false)
    requires NotesNewest(ops, hashes)
    ensures HashesAgree(hashes, d) <==> SurvivorsAgree(ops)
  {
    if HashesAgree(hashes, d) {
      forall i | Newest(ops, i)
        ensures NumberSurvives(ops, ops[i].block.number, ops[i].block.hash)
      {
        assert AgreesAt(hashes, d, ops[i].block.number);
        AgreesOnKnown(ops, hashes, d, i);
      }
    }
    if SurvivorsAgree(ops) {
      SurvivorsThenHashes(ops, hashes, d);
    }
  }

  lemma {:induction false} SurvivorsThenHashes(ops: seq<Insertion>, hashes: map<Word, Hash>, d: Disk)
    requires HoldsSurvivors(ops, d.blocksFull, true) && HoldsSurvivors(ops, d.blocksMin, false)
    requires NotesNewest(ops, hashes) && SurvivorsAgree(ops)
    ensures HashesAgree(hashes, d)
  {
    forall n: Word
      ensures AgreesAt(hashes, d, n)
    {
      if n in hashes {
        var i :| Newest(ops, i) && ops[i].block.number == n;
        AgreesOnKnown(ops, hashes, d, i);
      } else {
        FilesReflect(ops, d, n);
        AgreesOnUnknown(ops, hashes, d, n);
      }
    }
  }

  // ---------- Restarting after a history ----------

  lemma {:induction false} EmptyIsCoherent()
    ensures Coherent(EMPTY_MEMORY, EMPTY_DISK)
  {
  }

  lemma {:induction false} HistoryIsCoherent(config: Config, m: Memory, d: Disk, ops: seq<Insertion>)
    requires config.OnDisk? && Coherent(m, d)
    ensures Coherent(RememberAll(config, m, ops), PersistAll(config, d, ops))
  {
    if ops != [] {
      var k := |ops| - 1;
      HistoryIsCoherent(config, m, d, ops[..k]);
      InsertKeepsCoherence(RememberAll(config, m, ops[..k]), PersistAll(config, d, ops[..k]), ops[k], config);
    }
  }

  /** For every listing order a fresh cache on the directory holds what `m` holds, except the confirmed tokens. */
  ghost predicate ReloadsTo(d: Disk, m: Memory) {
    forall l :: Lists(l, d) ==> Reloaded(d, l) == Reload(m.(confirmedTokens := map[]), true)
  }

  /** A coherent cache reloads to the same contents if and only if its block files agree on the hashes. */
  lemma {:induction false} ReloadsIff(m: Memory, d: Disk)
    requires Coherent(m, d)
    ensures ReloadsTo(d, m) <==> HashesAgree(m.blockHashes, d)
  {
    if HashesAgree(m.blockHashes, d) {
      forall l | Lists(l, d)
        ensures Reloaded(d, l) == Reload(m.(confirmedTokens := map[]), true)
      {
        ReloadIsFaithful(m, d, l);
        AgreeImpliesReload(m.blockHashes, d, l.blocksFull, l.blocksMin);
      }
    }
    if ReloadsTo(d, m) {
      ReloadsThenAgrees(m, d);
    }
  }

  lemma {:induction false} ReloadsThenAgrees(m: Memory, d: Disk)
    requires Coherent(m, d) && ReloadsTo(d, m)
    ensures HashesAgree(m.blockHashes, d)
  {
    forall full, min | Enumerates(full, d.blocksFull) && Enumerates(min, d.blocksMin)
      ensures ReloadedHashes(d, full, min) == m.blockHashes
    {
      var l := ListingWith(d, full, min);
      ReloadIsFaithful(m, d, l);
    }
    ReloadImpliesAgree(m.blockHashes, d);
  }

  /** Any listing of the two block directories is part of a listing of all directories. */
  lemma {:induction false} ListingWith(d: Disk, full: seq<string>, min: seq<string>) returns (l: Listing)
    requires Enumerates(full, d.blocksFull) && Enumerates(min, d.blocksMin)
    ensures Lists(l, d) && l.blocksFull == full && l.blocksMin == min
  {
    var raw := SomeListing(d.blockRawTransactions.Keys);
    var txs := SomeListing(d.transactions.Keys);
    var selectors := SomeListing(d.resolverSelectors.Keys);
    var bridge := SomeListing(d.keyValue.Keys);
    l := Listing(full, min, raw, txs, selectors, bridge);
  }

  /**
    After EVERY history of insertions into an initially empty disk cache: a restarted cache holds the same
    contents except the confirmed tokens, for every listing order, if and only if the block files agree on
    the remembered hashes; and that holds if and only if each inserted number survives in some last
    insertion under a key, where those that may be read last all carry the hash inserted last.
   */
  lemma {:induction false} ReloadAfterHistory(ops: seq<Insertion>)
    ensures var m, d := RememberAll(OnDisk(false), EMPTY_MEMORY, ops), PersistAll(OnDisk(false), EMPTY_DISK, ops);
            && (ReloadsTo(d, m) <==> HashesAgree(m.blockHashes, d))
            && (ReloadsTo(d, m) <==> SurvivorsAgree(ops))
  {
    var m, d := RememberAll(OnDisk(false), EMPTY_MEMORY, ops), PersistAll(OnDisk(false), EMPTY_DISK, ops);
    assert Coherent(m, d) by {
      EmptyIsCoherent();
      HistoryIsCoherent(OnDisk(false), EMPTY_MEMORY, EMPTY_DISK, ops);
    }
    ReloadsIff(m, d);
    HistoryHashes(ops);
    HistoryFiles(ops, true);
    HistoryFiles(ops, false);
    AgreesIff(ops, m.blockHashes, d);
  }

  /** A block number always comes with the same hash. */
  ghost predicate OneHashPerNumber(ops: seq<Insertion>) {
    forall i, j :: 0 <= i < |ops| && 0 <= j < |ops| && SameNumber(ops[i], ops[j]) ==>
      ops[i].block.hash == ops[j].block.hash
  }

  /** `n` is the number of the last insertion under some kind and key. */
  ghost predicate IsCarried(ops: seq<Insertion>, n: Word) { exists j :: Carries(ops, j, n) }

  /** Every inserted number is the number of the last insertion under some kind and key. */
  ghost predicate EveryNumberSurvives(ops: seq<Insertion>) {
    forall i :: 0 <= i < |ops| && ops[i].InsertBlock? ==> IsCarried(ops, ops[i].block.number)
  }

  lemma {:induction false} SurvivorsAgreeWithOneHash(ops: seq<Insertion>)
    requires OneHashPerNumber(ops)
    ensures SurvivorsAgree(ops) <==> EveryNumberSurvives(ops)
  {
    if SurvivorsAgree(ops) {
      forall i | 0 <= i < |ops| && ops[i].InsertBlock?
        ensures IsCarried(ops, ops[i].block.number)
      {
        var k := SomeNewest(ops, i);
        SurvivingIsCarried(ops, ops[k].block.number, ops[k].block.hash);
      }
    }
    if EveryNumberSurvives(ops) {
      forall i | Newest(ops, i)
        ensures NumberSurvives(ops, ops[i].block.number, ops[i].block.hash)
      {
        SurvivorHasTheHash(ops, i);
      }
    }
  }

  lemma {:induction false} SurvivingIsCarried(ops: seq<Insertion>, n: Word, h: Hash)
    requires NumberSurvives(ops, n, h)
    ensures IsCarried(ops, n)
  {
    var full := !SomeSurvives(ops, false, n);
    assert SomeSurvives(ops, full, n);
    var j :| Carries(ops, j, n) && ops[j].full == full;
  }

  lemma {:induction false} SurvivorHasTheHash(ops: seq<Insertion>, i: nat)
    requires OneHashPerNumber(ops) && Newest(ops, i) && IsCarried(ops, ops[i].block.number)
    ensures NumberSurvives(ops, ops[i].block.number, ops[i].block.hash)
  {
    var n, h := ops[i].block.number, ops[i].block.hash;
    var j :| Carries(ops, j, n);
    assert SomeSurvives(ops, ops[j].full, n);
    forall k | Carries(ops, k, n)
      ensures ops[k].block.hash == h
    {
      assert SameNumber(ops[k], ops[i]);
    }
    assert SurvivorsCarry(ops, false, n, h) && SurvivorsCarry(ops, true, n, h);
  }

  /** With one hash per number, a restart loses nothing if and only if no number has been overwritten everywhere. */
  lemma {:induction false} ReloadWithOneHashPerNumber(ops: seq<Insertion>)
    requires OneHashPerNumber(ops)
    ensures var m, d := RememberAll(OnDisk(false), EMPTY_MEMORY, ops), PersistAll(OnDisk(false), EMPTY_DISK, ops);
            ReloadsTo(d, m) <==> EveryNumberSurvives(ops)
  {
    ReloadAfterHistory(ops);
    SurvivorsAgreeWithOneHash(ops);
  }

  /** A key always holds a block of the same number. */
  ghost predicate OneNumberPerKey(ops: seq<Insertion>) {
    forall i, j :: 0 <= i < |ops| && 0 <= j < |ops| && SameFile(ops[i], ops[j]) ==> SameNumber(ops[i], ops[j])
  }

  /** One hash per number and one number per key, as real blocks keyed by their hash have, are enough. */
  lemma {:induction false} ReloadOfConsistentHistory(ops: seq<Insertion>)
    requires OneHashPerNumber(ops) && OneNumberPerKey(ops)
    ensures ReloadsTo(PersistAll(OnDisk(false), EMPTY_DISK, ops), RememberAll(OnDisk(false), EMPTY_MEMORY, ops))
  {
    forall i | 0 <= i < |ops| && ops[i].InsertBlock?
      ensures IsCarried(ops, ops[i].block.number)
    {
      var j := SomeSurvivor(ops, i);
      assert Carries(ops, j, ops[i].block.number);
    }
    ReloadWithOneHashPerNumber(ops);
  }

  /**
    One hash per number alone is not enough: after two blocks of different numbers under one key, some
    restarted cache has lost a block hash.
   */
  lemma {:induction false} OneHashPerNumberIsNotEnough() returns (ops: seq<Insertion>, l: Listing)
    ensures OneHashPerNumber(ops)
    ensures var m, d := RememberAll(OnDisk(false), EMPTY_MEMORY, ops), PersistAll(OnDisk(false), EMPTY_DISK, ops);
            Lists(l, d) && Reloaded(d, l).memory.blockHashes != m.blockHashes
  {
    var h: Hash := seq(64, i => 0);
    ops := [InsertBlock(h, true, Block(1, h, [])), InsertBlock(h, true, Block(2, h, []))];
    assert Newest(ops, 0) && SameFile(ops[1], ops[0]);
    assert !SomeSurvives(ops, true, 1) && !SomeSurvives(ops, false, 1);
    l := LosesNumber(ops, 0);
  }

  /** A number that survives nowhere is lost by a restart. */
  lemma {:induction false} LosesNumber(ops: seq<Insertion>, i: nat) returns (l: Listing)
    requires Newest(ops, i)
    requires !SomeSurvives(ops, true, ops[i].block.number) && !SomeSurvives(ops, false, ops[i].block.number)
    ensures var m, d := RememberAll(OnDisk(false), EMPTY_MEMORY, ops), PersistAll(OnDisk(false), EMPTY_DISK, ops);
            Lists(l, d) && Reloaded(d, l).memory.blockHashes != m.blockHashes
  {
    var m, d := RememberAll(OnDisk(false), EMPTY_MEMORY, ops), PersistAll(OnDisk(false), EMPTY_DISK, ops);
    var n := ops[i].block.number;
    assert Coherent(m, d) by {
      EmptyIsCoherent();
      HistoryIsCoherent(OnDisk(false), EMPTY_MEMORY, EMPTY_DISK, ops);
    }
    assert n in m.blockHashes by {
      HistoryHashes(ops);
    }
    assert Reflects(ops, d, n) by {
      HistoryFiles(ops, true);
      HistoryFiles(ops, false);
      FilesReflect(ops, d, n);
    }
    var full := SomeListing(d.blocksFull.Keys);
    var min := SomeListing(d.blocksMin.Keys);
    l := ListingWith(d, full, min);
    ReloadIsFaithful(m, d, l);
    ReloadedHashesAt(d, full, min, n);
  }
}
