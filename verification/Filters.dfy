/** Installed filters and their pending updates (crates/core/src/filters.rs). */
module Filters {
  import opened Wrappers
  import opened AddressMap
  import opened Selections

  type H256 = nat

  const U256 := 0x1_0000_0000_0000_0000_0000_0000_0000_0000_0000_0000_0000_0000_0000_0000_0000_0000

  datatype BlockNumber = Finalized | Pending | Committed | L1Committed | Latest | Earliest | Number(n: nat)

  /** Resolves a block tag (crates/core/src/utils.rs). */
  function ToRealBlockNumber(block: BlockNumber, latest: nat): nat {
    match block
    case Earliest => 0
    case Number(n) => n
    case _ => latest
  }

  datatype Log = Log(blockNumber: nat, address: Address, topics: seq<H256>, data: seq<nat>)

  type Topics = t: seq<Option<set<H256>>> | |t| == 4 witness [None, None, None, None]

  datatype Criteria = Criteria(fromBlock: BlockNumber, toBlock: BlockNumber, addresses: seq<Address>, topics: Topics)

  /** Topic position `i` of the filter admits `topic`: an absent or empty set admits everything. */
  predicate AdmitsTopic(c: Criteria, i: nat, topic: H256)
    requires i < 4
  {
    c.topics[i].None? || c.topics[i].value == {} || topic in c.topics[i].value
  }

  /** The log lies in the block range, is from an admitted address, and its own first four topics are admitted. */
  ghost predicate Matches(c: Criteria, log: Log, latest: nat) {
    && ToRealBlockNumber(c.fromBlock, latest) <= log.blockNumber <= ToRealBlockNumber(c.toBlock, latest)
    && (c.addresses == [] || log.address in c.addresses)
    && forall i :: 0 <= i < 4 && i < |log.topics| ==> AdmitsTopic(c, i, log.topics[i])
  }

  method CheckMatches(c: Criteria, log: Log, latest: nat) returns (matched: bool)
    ensures matched <==> Matches(c, log, latest)
  {
    var from := ToRealBlockNumber(c.fromBlock, latest);
    var to := ToRealBlockNumber(c.toBlock, latest);
    if log.blockNumber < from || log.blockNumber > to {
      return false;
    }
    if c.addresses != [] {
      var known := false;
      for i := 0 to |c.addresses|
        invariant known <==> log.address in c.addresses[..i]
      {
        if c.addresses[i] == log.address {
          known := true;
        }
      }
      assert c.addresses[..|c.addresses|] == c.addresses;
      if !known {
        return false;
      }
    }
    var matchedTopic := [true, true, true, true];
    var n := if |log.topics| < 4 then |log.topics| else 4;
    for i := 0 to n
      invariant |matchedTopic| == 4
      invariant forall k :: 0 <= k < i ==> (matchedTopic[k] <==> AdmitsTopic(c, k, log.topics[k]))
      invariant forall k :: i <= k < 4 ==> matchedTopic[k]
    {
      if c.topics[i].Some? && c.topics[i].value != {} && log.topics[i] !in c.topics[i].value {
        matchedTopic := matchedTopic[i := false];
      }
    }
    matched := matchedTopic[0] && matchedTopic[1] && matchedTopic[2] && matchedTopic[3];
    assert matched <==> forall k :: 0 <= k < 4 ==> matchedTopic[k];
  }

  // ---------- Filters as values ----------

  datatype FilterType =
    | BlockFilter(hashes: seq<H256>)
    | LogFilter(criteria: Criteria, logs: seq<Log>)
    | PendingTransactionFilter(hashes: seq<H256>)

  datatype FilterChanges = Empty | Hashes(hashes: seq<H256>) | Logs(logs: seq<Log>)

  datatype Event = NewBlock(hash: H256) | NewPendingTransaction(hash: H256) | NewLog(log: Log, latest: nat)

  /** What a filter may report. */
  datatype Item = HashItem(hash: H256) | LogItem(log: Log)

  ghost predicate Interested(f: FilterType, e: Event) {
    match f
    case BlockFilter(_) => e.NewBlock?
    case LogFilter(criteria, _) => e.NewLog? && Matches(criteria, e.log, e.latest)
    case PendingTransactionFilter(_) => e.NewPendingTransaction?
  }

  function ItemOf(e: Event): Item {
    match e
    case NewLog(log, _) => LogItem(log)
    case _ => HashItem(e.hash)
  }

  ghost function Notified(f: FilterType, e: Event): FilterType {
    if !Interested(f, e) then f
    else match f
         case BlockFilter(hashes) => BlockFilter(hashes + [e.hash])
         case LogFilter(criteria, logs) => LogFilter(criteria, logs + [e.log])
         case PendingTransactionFilter(hashes) => PendingTransactionFilter(hashes + [e.hash])
  }

  function Drained(f: FilterType): FilterType {
    match f
    case BlockFilter(_) => BlockFilter([])
    case LogFilter(criteria, _) => LogFilter(criteria, [])
    case PendingTransactionFilter(_) => PendingTransactionFilter([])
  }

  function Changes(f: FilterType): FilterChanges {
    match f
    case BlockFilter(hashes) => if hashes == [] then Empty else Hashes(hashes)
    case LogFilter(_, logs) => if logs == [] then Empty else Logs(logs)
    case PendingTransactionFilter(hashes) => if hashes == [] then Empty else Hashes(hashes)
  }

  // ---------- Histories ----------

  datatype FilterState = FilterState(idCounter: nat, filters: map<nat, FilterType>)

  datatype Op =
    | Add(filter: FilterType)
    | Remove(id: nat)
    | GetChanges(id: nat)
    | Notify(event: Event)

  ghost function Apply(s: FilterState, op: Op): FilterState {
    match op
    case Add(filter) =>
      if s.idCounter + 1 < U256 then FilterState(s.idCounter + 1, s.filters[s.idCounter + 1 := Drained(filter)]) else s
    case Remove(id) => s.(filters := s.filters - {id})
    case GetChanges(id) => if id in s.filters then s.(filters := s.filters[id := Drained(s.filters[id])]) else s
    case Notify(e) => s.(filters := map id | id in s.filters :: Notified(s.filters[id], e))
  }

  ghost predicate Valid(s: FilterState) {
    s.idCounter < U256 && forall id :: id in s.filters ==> id <= s.idCounter
  }

  class EthFilters {
    var idCounter: nat
    var filters: map<nat, FilterType>

    ghost function State(): FilterState
      reads this
    {
      FilterState(idCounter, filters)
    }

    constructor ()
      ensures State() == FilterState(0, map[])
    {
      idCounter, filters := 0, map[];
    }

    /** The common part of the three `add` operations; fails once the 256-bit counter is exhausted. */
    method AddFilter(filter: FilterType) returns (id: Result<nat, string>)
      requires Valid(State())
      modifies this
      ensures Valid(State()) && State() == Apply(old(State()), Add(filter))
      ensures id == if old(idCounter) + 1 < U256 then Ok(old(idCounter) + 1) else Err("overflow")
      ensures id.Err? ==>
        old(idCounter) == 0xffff_ffff_ffff_ffff_ffff_ffff_ffff_ffff_ffff_ffff_ffff_ffff_ffff_ffff_ffff_ffff
    {
      if idCounter + 1 >= U256 {
        return Err("overflow");
      }
      idCounter := idCounter + 1;
      filters := filters[idCounter := Drained(filter)];
      id := Ok(idCounter);
    }

    /** Returns whether the filter existed. */
    method RemoveFilter(id: nat) returns (existed: bool)
      requires Valid(State())
      modifies this
      ensures Valid(State()) && State() == Apply(old(State()), Remove(id))
      ensures existed <==> id in old(filters)
    {
      existed := id in filters;
      filters := filters - {id};
    }

    /** Retrieves the updates of a filter and resets them. */
    method GetNewChanges(id: nat) returns (changes: Result<FilterChanges, string>)
      requires Valid(State())
      modifies this
      ensures Valid(State()) && State() == Apply(old(State()), GetChanges(id))
      ensures changes == if id in old(filters) then Ok(Changes(old(filters)[id])) else Err("invalid filter")
    {
      if id !in filters {
        return Err("invalid filter");
      }
      changes := Ok(Changes(filters[id]));
      filters := filters[id := Drained(filters[id])];
    }

    /** Offers an event to every installed filter. */
    method NotifyFilters(e: Event)
      requires Valid(State())
      modifies this
      ensures Valid(State()) && State() == Apply(old(State()), Notify(e))
    {
      var todo := filters.Keys;
      while todo != {}
        invariant todo <= filters.Keys == old(filters).Keys && idCounter == old(idCounter)
        invariant forall id :: id in todo ==> filters[id] == old(filters)[id]
        invariant forall id :: id in filters && id !in todo ==> filters[id] == Notified(old(filters)[id], e)
        decreases |todo|
      {
        var id :| id in todo;
        var updated := NotifyOne(filters[id], e);
        filters := filters[id := updated];
        todo := todo - {id};
      }
    }
  }

  /** Pushes the event to a filter's updates if the filter is of its kind and, for logs, matches. */
  method NotifyOne(f: FilterType, e: Event) returns (r: FilterType)
    ensures r == Notified(f, e)
  {
    match f {
      case BlockFilter(hashes) =>
        r := if e.NewBlock? then BlockFilter(hashes + [e.hash]) else f;
      case LogFilter(criteria, logs) =>
        r := f;
        if e.NewLog? {
          var matched := CheckMatches(criteria, e.log, e.latest);
          if matched {
            r := LogFilter(criteria, logs + [e.log]);
          }
        }
      case PendingTransactionFilter(hashes) =>
        r := if e.NewPendingTransaction? then PendingTransactionFilter(hashes + [e.hash]) else f;
    }
  }

  // ---------- Exactly-once delivery ----------

  function HashItems(hashes: seq<H256>): seq<Item> {
    seq(|hashes|, i requires 0 <= i < |hashes| => HashItem(hashes[i]))
  }

  function LogItems(logs: seq<Log>): seq<Item> {
    seq(|logs|, i requires 0 <= i < |logs| => LogItem(logs[i]))
  }

  /** The updates waiting in a filter. */
  function Waiting(f: FilterType): seq<Item> {
    match f
    case BlockFilter(hashes) => HashItems(hashes)
    case LogFilter(_, logs) => LogItems(logs)
    case PendingTransactionFilter(hashes) => HashItems(hashes)
  }

  /** The updates an answer of `get_new_changes` carries. */
  function Reported(c: FilterChanges): seq<Item> {
    match c
    case Empty => []
    case Hashes(hashes) => HashItems(hashes)
    case Logs(logs) => LogItems(logs)
  }

  ghost function After(s: FilterState, ops: seq<Op>): FilterState
    decreases |ops|
  {
    if ops == [] then s else After(Apply(s, ops[0]), ops[1..])
  }

  /** All updates reported for `id` along a history. */
  ghost function AllReported(s: FilterState, ops: seq<Op>, id: nat): seq<Item>
    decreases |ops|
  {
    if ops == [] then []
    else (if ops[0] == GetChanges(id) && id in s.filters then Reported(Changes(s.filters[id])) else [])
         + AllReported(Apply(s, ops[0]), ops[1..], id)
  }

  /** The events of a history that concern the filter, in order. */
  ghost function Relevant(f: FilterType, ops: seq<Op>): seq<Item>
    decreases |ops|
  {
    if ops == [] then []
    else (if ops[0].Notify? && Interested(f, ops[0].event) then [ItemOf(ops[0].event)] else [])
         + Relevant(f, ops[1..])
  }

  lemma {:induction false} ApplyKeepsValid(s: FilterState, op: Op)
    requires Valid(s)
    ensures Valid(Apply(s, op)) && s.idCounter <= Apply(s, op).idCounter
  {
  }

  /** A drained or notified filter goes on being interested in the same events. */
  lemma {:induction false} SameInterest(f: FilterType, g: FilterType, ops: seq<Op>)
    requires Drained(f) == Drained(g)
    ensures Relevant(f, ops) == Relevant(g, ops)
    decreases |ops|
  {
    if ops != [] {
      SameInterest(f, g, ops[1..]);
    }
  }

  /** One operation, seen by one filter: what it reports plus what then waits is what waited plus what arrived. */
  lemma {:induction false} OneStep(s: FilterState, op: Op, id: nat)
    requires Valid(s) && id in s.filters && op != Remove(id)
    ensures var s' := Apply(s, op);
            && id in s'.filters && Drained(s'.filters[id]) == Drained(s.filters[id])
            && (if op == GetChanges(id) then Reported(Changes(s.filters[id])) else []) + Waiting(s'.filters[id])
               == Waiting(s.filters[id])
                  + (if op.Notify? && Interested(s.filters[id], op.event) then [ItemOf(op.event)] else [])
  {
    var f, s' := s.filters[id], Apply(s, op);
    if op.Notify? {
      assert s'.filters[id] == Notified(f, op.event);
    } else if op != GetChanges(id) {
      assert s'.filters[id] == f;
    }
  }

  lemma {:induction false} Accounted(s: FilterState, ops: seq<Op>, id: nat)
    requires Valid(s) && id in s.filters && Remove(id) !in ops
    ensures var s' := After(s, ops);
            id in s'.filters &&
            AllReported(s, ops, id) + Waiting(s'.filters[id]) == Waiting(s.filters[id]) + Relevant(s.filters[id], ops)
    decreases |ops|
  {
    if ops != [] {
      var f, s1 := s.filters[id], Apply(s, ops[0]);
      ApplyKeepsValid(s, ops[0]);
      assert ops[0] in ops;
      OneStep(s, ops[0], id);
      Accounted(s1, ops[1..], id);
      SameInterest(f, s1.filters[id], ops[1..]);
      var now := if ops[0] == GetChanges(id) then Reported(Changes(f)) else [];
      var arrived := if ops[0].Notify? && Interested(f, ops[0].event) then [ItemOf(ops[0].event)] else [];
      Telescope(now, AllReported(s1, ops[1..], id), Waiting(After(s1, ops[1..]).filters[id]),
                Waiting(f), Waiting(s1.filters[id]), arrived, Relevant(f, ops[1..]));
    }
  }

  lemma {:induction false} Telescope(
    now: seq<Item>, later: seq<Item>, end: seq<Item>, w0: seq<Item>, w1: seq<Item>, arrived: seq<Item>, rest: seq<Item>)
    requires now + w1 == w0 + arrived && later + end == w1 + rest
    ensures (now + later) + end == w0 + (arrived + rest)
  {
    assert now + later + end == now + (later + end);
    assert now + (w1 + rest) == now + w1 + rest;
    assert w0 + arrived + rest == w0 + (arrived + rest);
  }

  /**
    From its installation on, whatever else happens, the updates reported for a filter followed by those
    still waiting are exactly the events of its kind (for logs: those that matched when notified),
    each once and in order.
   */
  lemma {:induction false} ExactlyOnce(s: FilterState, filter: FilterType, ops: seq<Op>)
    requires Valid(s) && s.idCounter + 1 < U256 && Remove(s.idCounter + 1) !in ops
    ensures var id, installed := s.idCounter + 1, Apply(s, Add(filter));
            var final := After(installed, ops);
            id in final.filters &&
            AllReported(installed, ops, id) + Waiting(final.filters[id]) == Relevant(filter, ops)
  {
    var id, installed := s.idCounter + 1, Apply(s, Add(filter));
    ApplyKeepsValid(s, Add(filter));
    Accounted(installed, ops, id);
    SameInterest(filter, Drained(filter), ops);
    assert [] + Relevant(filter, ops) == Relevant(filter, ops);
    assert Waiting(Drained(filter)) == [];
  }

  /** An id that is not installed but was issued stays uninstalled for ever: ids are never reissued. */
  lemma {:induction false} NeverReissued(s: FilterState, ops: seq<Op>, id: nat)
    requires Valid(s) && id <= s.idCounter && id !in s.filters
    ensures Valid(After(s, ops)) && id !in After(s, ops).filters
    decreases |ops|
  {
    if ops != [] {
      ApplyKeepsValid(s, ops[0]);
      NeverReissued(Apply(s, ops[0]), ops[1..], id);
    }
  }

  /** Once removed, an issued id stays away whatever follows; removing it leaves all other filters as they were. */
  lemma {:induction false} RemovedIsGone(s: FilterState, ops: seq<Op>, id: nat)
    requires Valid(s) && id <= s.idCounter
    ensures id !in After(Apply(s, Remove(id)), ops).filters
    ensures forall other :: other != id ==>
      var s' := Apply(s, Remove(id));
      && (other in s'.filters <==> other in s.filters)
      && (other in s.filters ==> s'.filters[other] == s.filters[other])
  {
    ApplyKeepsValid(s, Remove(id));
    NeverReissued(Apply(s, Remove(id)), ops, id);
  }

  /** Adding a filter or asking for the changes of one leaves all other filters as they were. */
  lemma {:induction false} OthersAreUnaffected(s: FilterState, op: Op, id: nat)
    requires Valid(s) && id in s.filters
    requires op.Add? || (op.GetChanges? && op.id != id) || (op.Remove? && op.id != id)
    ensures id in Apply(s, op).filters && Apply(s, op).filters[id] == s.filters[id]
  {
    assert id != s.idCounter + 1;
  }

  // ---------- The same without the model's own notions of matching and relevance ----------

  /** Tags: `Earliest` is block 0, every other tag is the latest block at the time. */
  ghost predicate InRange(c: Criteria, block: nat, latest: nat) {
    && (match c.fromBlock
        case Earliest => true
        case Number(n) => n <= block
        case Finalized => latest <= block
        case Pending => latest <= block
        case Committed => latest <= block
        case L1Committed => latest <= block
        case Latest => latest <= block)
    && (match c.toBlock
        case Earliest => block == 0
        case Number(n) => block <= n
        case Finalized => block <= latest
        case Pending => block <= latest
        case Committed => block <= latest
        case L1Committed => block <= latest
        case Latest => block <= latest)
  }

  /** What a log must satisfy, in full; positions beyond the log's own topics demand nothing. */
  ghost predicate Admits(c: Criteria, log: Log, latest: nat) {
    && InRange(c, log.blockNumber, latest)
    && (|c.addresses| > 0 ==> exists i :: 0 <= i < |c.addresses| && c.addresses[i] == log.address)
    && (forall i :: 0 <= i < |log.topics| && i < 4 && c.topics[i].Some? && c.topics[i].value != {} ==>
          log.topics[i] in c.topics[i].value)
  }

  lemma {:induction false} MatchesMeans(c: Criteria, log: Log, latest: nat)
    ensures Matches(c, log, latest) <==> Admits(c, log, latest)
  {
    assert InRange(c, log.blockNumber, latest) <==>
      ToRealBlockNumber(c.fromBlock, latest) <= log.blockNumber <= ToRealBlockNumber(c.toBlock, latest);
    assert (forall i :: 0 <= i < 4 && i < |log.topics| ==> AdmitsTopic(c, i, log.topics[i])) <==>
      (forall i :: 0 <= i < |log.topics| && i < 4 && c.topics[i].Some? && c.topics[i].value != {} ==>
         log.topics[i] in c.topics[i].value);
  }

  /** The events notified along a history. */
  function EventsIn(ops: seq<Op>): seq<Event> {
    if ops == [] then [] else (if ops[0].Notify? then [ops[0].event] else []) + EventsIn(ops[1..])
  }

  /** Block filters care about blocks, transaction filters about pending transactions, log filters about their logs. */
  ghost function Concern(f: FilterType): Event -> bool {
    (e: Event) =>
      || (f.BlockFilter? && e.NewBlock?)
      || (f.PendingTransactionFilter? && e.NewPendingTransaction?)
      || (f.LogFilter? && e.NewLog? && Admits(f.criteria, e.log, e.latest))
  }

  /** The items tell of the events, one each: the hash of a block or transaction, or the log. */
  ghost predicate TellOf(items: seq<Item>, events: seq<Event>) {
    |items| == |events| && forall k :: 0 <= k < |items| ==>
      match events[k]
      case NewBlock(hash) => items[k] == HashItem(hash)
      case NewPendingTransaction(hash) => items[k] == HashItem(hash)
      case NewLog(log, _) => items[k] == LogItem(log)
  }

  lemma {:induction false} RelevantTells(f: FilterType, ops: seq<Op>)
    ensures TellOf(Relevant(f, ops), Matching(EventsIn(ops), Concern(f)))
    decreases |ops|
  {
    if ops != [] {
      RelevantTells(f, ops[1..]);
      var events, rest := EventsIn(ops), EventsIn(ops[1..]);
      if ops[0].Notify? {
        var e := ops[0].event;
        InterestMeans(f, e);
        assert events[1..] == rest;
        assert Matching(events, Concern(f)) == (if Concern(f)(e) then [e] else []) + Matching(rest, Concern(f));
      } else {
        assert events == rest;
      }
    }
  }

  lemma {:induction false} InterestMeans(f: FilterType, e: Event)
    ensures Interested(f, e) <==> Concern(f)(e)
  {
    if f.LogFilter? && e.NewLog? {
      MatchesMeans(f.criteria, e.log, e.latest);
    }
  }

  /**
    Exactly-once delivery told by the notified events alone: what was reported for a filter and what waits in it
    tells, in order and once each, of exactly the events since its installation that concern it.
   */
  lemma {:induction false} ReportsAreTheEvents(s: FilterState, filter: FilterType, ops: seq<Op>)
    requires Valid(s) && s.idCounter + 1 < U256 && Remove(s.idCounter + 1) !in ops
    ensures var id, installed := s.idCounter + 1, Apply(s, Add(filter));
            var final := After(installed, ops);
            && id in final.filters
            && exists told :: IsSelection(EventsIn(ops), Concern(filter), told)
                           && TellOf(AllReported(installed, ops, id) + Waiting(final.filters[id]), told)
  {
    ExactlyOnce(s, filter, ops);
    RelevantTells(filter, ops);
    MatchingIsSelection(EventsIn(ops), Concern(filter));
  }
}
