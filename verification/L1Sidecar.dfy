/**
  The sidecar's commands (crates/l1_sidecar/src/lib.rs): each asks the commitment generator for a batch and
  then sends it to the L1 sender. Any number of callers do so at once.
 */
module L1Sidecar {
  import opened Wrappers
  import opened CommitmentGenerator
  import opened L1Sender

  datatype Kind = CommitBatch | ProveBatch | ExecuteBatch

  function CommandFor(kind: Kind, batch: L1Batch): (command: Command)
    ensures command.batch == batch
  {
    match kind
    case CommitBatch => Commit(batch)
    case ProveBatch => Prove(batch)
    case ExecuteBatch => Execute(batch)
  }

  /** A caller: idle, waiting for metadata, or waiting for the sender to handle its command. */
  datatype Phase = Ready | Asking(kind: Kind) | Sending(kind: Kind, batch: L1Batch)

  /** The memo, the callers, and the requests the sender has handled so far, in order of arrival. */
  datatype Sidecar = Sidecar(memo: Memo, phases: map<CallerId, Phase>, requests: seq<Request>)

  function Started(config: Config): Sidecar { Sidecar(Fresh(config), map[], []) }

  function PhaseOf(s: Sidecar, c: CallerId): Phase { if c in s.phases then s.phases[c] else Ready }

  /** All calls to L1 so far. The sender starts with the memo's genesis. */
  function Calls(s: Sidecar): seq<L1Call> { CallsOf(Initial(Genesis(s.memo.config)), s.requests) }

  datatype Step =
    | Ask(c: CallerId, kind: Kind, number: nat)
    | NoSuchBatch(c: CallerId)
    | Generated(c: CallerId, stored: StoredBatch, root: nat)
    /** L1's verdict on the command; `next` is a further command on the same metadata, as the auto executor sends. */
    | Handled(c: CallerId, ok: bool, next: Option<Kind>)

  predicate Enabled(s: Sidecar, e: Step) {
    match e
    case Ask(c, _, number) => PhaseOf(s, c).Ready? && CanHappen(s.memo, Lookup(c, number))
    case NoSuchBatch(c) => PhaseOf(s, c).Asking? && CanHappen(s.memo, GiveUp(c))
    case Generated(c, stored, root) => PhaseOf(s, c).Asking? && CanHappen(s.memo, Store(c, stored, root))
    case Handled(c, _, _) => PhaseOf(s, c).Sending?
  }

  /** The phase of a caller that has just been answered. */
  function Answered(kind: Kind, memo: Memo): Phase
    requires memo.answers != []
  {
    Sending(kind, memo.answers[|memo.answers| - 1].batch)
  }

  function Take(s: Sidecar, e: Step): Sidecar
    requires Enabled(s, e)
  {
    match e
    case Ask(c, kind, number) =>
      var memo := Happen(s.memo, Lookup(c, number));
      s.(memo := memo,
         phases := s.phases[c := if At(memo, c).Idle? then Answered(kind, memo) else Asking(kind)])
    case NoSuchBatch(c) => s.(memo := Happen(s.memo, GiveUp(c)), phases := s.phases[c := Ready])
    case Generated(c, stored, root) =>
      var memo := Happen(s.memo, Store(c, stored, root));
      s.(memo := memo, phases := s.phases[c := Answered(PhaseOf(s, c).kind, memo)])
    case Handled(c, ok, next) =>
      var Sending(kind, batch) := PhaseOf(s, c);
      s.(requests := s.requests + [Request(CommandFor(kind, batch), ok)],
         phases := s.phases[c := if next.Some? then Sending(next.value, batch) else Ready])
  }

  ghost predicate IsHistory(s: Sidecar, es: seq<Step>)
    decreases |es|
  {
    es == [] || (Enabled(s, es[0]) && IsHistory(Take(s, es[0]), es[1..]))
  }

  ghost function Result(s: Sidecar, es: seq<Step>): Sidecar
    requires IsHistory(s, es)
    decreases |es|
  {
    if es == [] then s else Result(Take(s, es[0]), es[1..])
  }

  /** At no moment do two callers generate the same batch. */
  ghost predicate StaysApart(s: Sidecar, es: seq<Step>)
    requires IsHistory(s, es)
    decreases |es|
  {
    NoOverlap(s.memo) && (es == [] || StaysApart(Take(s, es[0]), es[1..]))
  }

  // ---------- One metadata per batch number ----------

  /** The batch is what the memo holds under the batch's number. */
  ghost predicate Known(m: Memo, batch: L1Batch) {
    batch.header.number in m.batches && m.batches[batch.header.number] == batch
  }

  ghost predicate AllKnown(s: Sidecar) {
    && (forall c: CallerId :: PhaseOf(s, c).Sending? ==> Known(s.memo, PhaseOf(s, c).batch))
    && (forall i :: 0 <= i < |s.requests| ==> Known(s.memo, s.requests[i].command.batch))
  }

  ghost predicate Inv(s: Sidecar) { MemoValid(s.memo) && Settled(s.memo) && AllKnown(s) }

  /** Without overlap the memo never replaces an entry. */
  lemma {:induction false} KnownStays(m: Memo, e: Event, batch: L1Batch)
    requires Settled(m) && CanHappen(m, e) && Known(m, batch)
    ensures Known(Happen(m, e), batch)
  {
  }

  /** What a caller is answered is what the memo holds. */
  lemma {:induction false} AnswerIsKnown(m: Memo)
    requires MemoValid(m) && Settled(m) && m.answers != []
    ensures Known(m, m.answers[|m.answers| - 1].batch)
  {
  }

  lemma {:induction false} MemoStepKeepsInv(s: Sidecar, e: Event, phase: Phase)
    requires Inv(s) && NoOverlap(s.memo) && CanHappen(s.memo, e)
    requires phase.Sending? ==>
      var answers := Happen(s.memo, e).answers; answers != [] && phase.batch == answers[|answers| - 1].batch
    ensures Inv(s.(memo := Happen(s.memo, e), phases := s.phases[e.c := phase]))
  {
    var m' := Happen(s.memo, e);
    var s' := s.(memo := m', phases := s.phases[e.c := phase]);
    EventKeepsMemoValid(s.memo, e);
    EventKeepsSettled(s.memo, e);
    forall c: CallerId | PhaseOf(s', c).Sending?
      ensures Known(m', PhaseOf(s', c).batch)
    {
      if c == e.c {
        AnswerIsKnown(m');
      } else {
        assert PhaseOf(s', c) == PhaseOf(s, c);
        KnownStays(s.memo, e, PhaseOf(s, c).batch);
      }
    }
    forall i | 0 <= i < |s.requests|
      ensures Known(m', s.requests[i].command.batch)
    {
      KnownStays(s.memo, e, s.requests[i].command.batch);
    }
  }

  lemma {:induction false} StepKeepsInv(s: Sidecar, e: Step)
    requires Inv(s) && NoOverlap(s.memo) && Enabled(s, e)
    ensures Inv(Take(s, e))
  {
    var s' := Take(s, e);
    match e
    case Ask(c, kind, number) => MemoStepKeepsInv(s, Lookup(c, number), s'.phases[c]);
    case NoSuchBatch(c) => MemoStepKeepsInv(s, GiveUp(c), Ready);
    case Generated(c, stored, root) => MemoStepKeepsInv(s, Store(c, stored, root), s'.phases[c]);
    case Handled(c, ok, next) =>
      assert forall d: CallerId :: d != c ==> PhaseOf(s', d) == PhaseOf(s, d);
      assert Known(s.memo, PhaseOf(s, c).batch);
  }

  lemma {:induction false} HistoryKeepsInv(s: Sidecar, es: seq<Step>)
    requires Inv(s) && IsHistory(s, es) && StaysApart(s, es)
    ensures Inv(Result(s, es))
    decreases |es|
  {
    if es != [] {
      StepKeepsInv(s, es[0]);
      HistoryKeepsInv(Take(s, es[0]), es[1..]);
    }
  }

  /** A sender that is only ever given known batches names only known batches, as predecessors too. */
  lemma {:induction false} SenderNamesKnown(m: Memo, requests: seq<Request>)
    requires MemoValid(m) && forall i :: 0 <= i < |requests| ==> Known(m, requests[i].command.batch)
    ensures var s := ProcessAll(Initial(Genesis(m.config)), requests);
            Known(m, s.lastCommitted) && Known(m, s.lastProved)
    ensures forall i :: 0 <= i < |requests| ==> NamesKnown(m, CallsOf(Initial(Genesis(m.config)), requests)[i])
  {
    if requests != [] {
      var n := |requests| - 1;
      assert forall i :: 0 <= i < n ==> requests[..n][i] == requests[i];
      SenderNamesKnown(m, requests[..n]);
      assert Known(m, requests[n].command.batch);
    }
  }

  ghost predicate NamesKnown(m: Memo, call: L1Call) {
    Known(m, call.batch) && (!call.ExecuteCall? ==> Known(m, call.previous))
  }

  /** The batches that a call hands to L1. */
  function Named(call: L1Call): seq<L1Batch> {
    if call.ExecuteCall? then [call.batch] else [call.previous, call.batch]
  }

  /**
    In every history of manual commands and auto executors without overlapping generation, any two calls
    to L1, be they commits, proofs or executes, that name a batch of the same number name the same metadata
    for it, whether as the batch itself or as its predecessor.
   */
  lemma {:induction false} CallsShareMetadata(config: Config, es: seq<Step>, i: nat, j: nat, a: L1Batch, b: L1Batch)
    requires IsHistory(Started(config), es) && StaysApart(Started(config), es)
    requires var calls := Calls(Result(Started(config), es));
             i < |calls| && j < |calls| && a in Named(calls[i]) && b in Named(calls[j])
    requires a.header.number == b.header.number
    ensures a == b
  {
    HistoryKeepsInv(Started(config), es);
    var s := Result(Started(config), es);
    SenderNamesKnown(s.memo, s.requests);
    var calls := Calls(s);
    assert NamesKnown(s.memo, calls[i]) && NamesKnown(s.memo, calls[j]);
  }

  // ---------- Commands reach L1 as they were asked ----------

  /** A command as its caller asked for it. */
  datatype Wish = Wish(kind: Kind, number: nat)

  /** What caller `c` asked for last, read off the steps alone. */
  function LastWish(past: seq<Step>, c: CallerId): Option<Wish> {
    if past == [] then None
    else var n := |past| - 1;
         var before := LastWish(past[..n], c);
         match past[n]
         case Ask(d, kind, number) => if d == c then Some(Wish(kind, number)) else before
         case Handled(d, _, next) =>
           if d == c && next.Some? && before.Some? then Some(Wish(next.value, before.value.number)) else before
         case _ => before
  }

  /** The commands handled, in order, each with L1's verdict. */
  function Wishes(past: seq<Step>): seq<(Wish, bool)> {
    if past == [] then []
    else var n := |past| - 1;
         var before := Wishes(past[..n]);
         if past[n].Handled? && LastWish(past[..n], past[n].c).Some?
         then before + [(LastWish(past[..n], past[n].c).value, past[n].ok)] else before
  }

  /** A call to L1 does what was asked: the right kind of call for the right batch. */
  ghost predicate Grants(call: L1Call, wish: Wish, ok: bool) {
    && (call.CommitCall? <==> wish.kind == CommitBatch)
    && (call.ProveCall? <==> wish.kind == ProveBatch)
    && (call.ExecuteCall? <==> wish.kind == ExecuteBatch)
    && call.batch.header.number == wish.number && call.ok == ok
  }

  ghost predicate RequestGrants(r: Request, wish: Wish, ok: bool) {
    && (r.command.Commit? <==> wish.kind == CommitBatch)
    && (r.command.Prove? <==> wish.kind == ProveBatch)
    && (r.command.Execute? <==> wish.kind == ExecuteBatch)
    && r.command.batch.header.number == wish.number && r.ok == ok
  }

  /** A caller that is waiting waits for what it asked for last. */
  ghost predicate CallerTracked(past: seq<Step>, s: Sidecar, c: CallerId) {
    match PhaseOf(s, c)
    case Ready => At(s.memo, c).Idle?
    case Asking(kind) => At(s.memo, c).Generating? && LastWish(past, c) == Some(Wish(kind, At(s.memo, c).number))
    case Sending(kind, batch) => At(s.memo, c).Idle? && LastWish(past, c) == Some(Wish(kind, batch.header.number))
  }

  ghost predicate AllGranted(requests: seq<Request>, wishes: seq<(Wish, bool)>) {
    |requests| == |wishes|
    && forall i :: 0 <= i < |requests| ==> RequestGrants(requests[i], wishes[i].0, wishes[i].1)
  }

  ghost predicate Tracks(past: seq<Step>, s: Sidecar) {
    && MemoValid(s.memo) && (forall c: CallerId :: CallerTracked(past, s, c)) && AllGranted(s.requests, Wishes(past))
  }

  lemma {:induction false} CallerStaysTracked(past: seq<Step>, s: Sidecar, e: Step, c: CallerId)
    requires Tracks(past, s) && Enabled(s, e)
    ensures CallerTracked(past + [e], Take(s, e), c)
  {
    var s' := Take(s, e);
    assert (past + [e])[..|past|] == past;
    assert CallerTracked(past, s, c);
    if c != e.c {
      assert PhaseOf(s', c) == PhaseOf(s, c) && At(s'.memo, c) == At(s.memo, c);
    }
  }

  lemma {:induction false} StepTracked(past: seq<Step>, s: Sidecar, e: Step)
    requires Tracks(past, s) && Enabled(s, e)
    ensures Tracks(past + [e], Take(s, e))
  {
    var s' := Take(s, e);
    assert (past + [e])[..|past|] == past;
    forall c: CallerId
      ensures CallerTracked(past + [e], s', c)
    {
      CallerStaysTracked(past, s, e, c);
    }
    match e
    case Ask(c, _, number) => EventKeepsMemoValid(s.memo, Lookup(c, number));
    case NoSuchBatch(c) => EventKeepsMemoValid(s.memo, GiveUp(c));
    case Generated(c, stored, root) => EventKeepsMemoValid(s.memo, Store(c, stored, root));
    case Handled(c, ok, _) => assert CallerTracked(past, s, c);
  }

  lemma {:induction false} HistoryTracked(past: seq<Step>, s: Sidecar, es: seq<Step>)
    requires Tracks(past, s) && IsHistory(s, es)
    ensures Tracks(past + es, Result(s, es))
    decreases |es|
  {
    if es == [] {
      assert past + es == past;
    } else {
      StepTracked(past, s, es[0]);
      HistoryTracked(past + [es[0]], Take(s, es[0]), es[1..]);
      assert past + [es[0]] + es[1..] == past + es;
    }
  }

  /**
    In every history, overlapping or not, L1 receives exactly the commands that were asked for and handled, in
    that order: a commit, proof or execution for a commit, prove or execute command, and of the batch asked for.
   */
  lemma {:induction false} CallsAreAsAsked(config: Config, es: seq<Step>)
    requires IsHistory(Started(config), es)
    ensures var calls, wishes := Calls(Result(Started(config), es)), Wishes(es);
            && |calls| == |wishes|
            && forall i :: 0 <= i < |calls| ==> Grants(calls[i], wishes[i].0, wishes[i].1)
  {
    HistoryTracked([], Started(config), es);
    assert [] + es == es;
    var s := Result(Started(config), es);
    forall i | 0 <= i < |s.requests|
      ensures Grants(Calls(s)[i], Wishes(es)[i].0, Wishes(es)[i].1)
    {
      CallAt(Initial(Genesis(s.memo.config)), s.requests, i);
      assert RequestGrants(s.requests[i], Wishes(es)[i].0, Wishes(es)[i].1);
    }
  }

  // ---------- Overlap ----------

  /** A history can be extended by one step at its front. */
  lemma {:induction false} StepThen(s: Sidecar, e: Step, es: seq<Step>)
    requires Enabled(s, e) && IsHistory(Take(s, e), es)
    ensures IsHistory(s, [e] + es) && Result(s, [e] + es) == Result(Take(s, e), es)
  {
    assert ([e] + es)[1..] == es;
  }

  /** Where two callers hold different metadata, the sender may be handed both, one after the other. */
  lemma {:induction false} BothAreSent(s: Sidecar, c: CallerId, d: CallerId) returns (es: seq<Step>)
    requires c != d && PhaseOf(s, c).Sending? && PhaseOf(s, d).Sending?
    ensures IsHistory(s, es)
    ensures Result(s, es).memo == s.memo
    ensures Result(s, es).requests
         == s.requests + [Request(CommandFor(PhaseOf(s, c).kind, PhaseOf(s, c).batch), true),
                          Request(CommandFor(PhaseOf(s, d).kind, PhaseOf(s, d).batch), true)]
  {
    var first, second := Handled(c, true, None), Handled(d, true, None);
    var s1 := Take(s, first);
    assert PhaseOf(s1, d) == PhaseOf(s, d);
    StepThen(s1, second, []);
    es := [first] + ([second] + []);
    StepThen(s, first, [second] + []);
  }

  /** Two callers that both looked the batch up before either stored it hold different metadata for it. */
  lemma {:induction false} BothGenerate(s: Sidecar, stored: StoredBatch, a: Kind, b: Kind) returns (es: seq<Step>)
    requires stored.header.number !in s.memo.batches
    requires PhaseOf(s, 0).Ready? && PhaseOf(s, 1).Ready? && At(s.memo, 0).Idle? && At(s.memo, 1).Idle?
    ensures IsHistory(s, es)
    ensures var s' := Result(s, es);
            && s'.requests == s.requests && s'.memo.config == s.memo.config
            && PhaseOf(s', 0) == Sending(a, Generate(s.memo.config, stored, 0))
            && PhaseOf(s', 1) == Sending(b, Generate(s.memo.config, stored, 1))
  {
    var n := stored.header.number;
    var e1, e2, e3, e4 := Ask(0, a, n), Ask(1, b, n), Generated(0, stored, 0), Generated(1, stored, 1);
    var s1 := Take(s, e1);
    assert PhaseOf(s1, 1).Ready? && At(s1.memo, 1).Idle?;
    var s2 := Take(s1, e2);
    assert PhaseOf(s2, 0) == Asking(a) && At(s2.memo, 0) == Generating(n);
    var s3 := Take(s2, e3);
    assert PhaseOf(s3, 1) == Asking(b) && At(s3.memo, 1) == Generating(n);
    StepThen(s3, e4, []);
    StepThen(s2, e3, [e4] + []);
    StepThen(s1, e2, [e3] + ([e4] + []));
    StepThen(s, e1, [e2] + ([e3] + ([e4] + [])));
    es := [e1] + ([e2] + ([e3] + ([e4] + [])));
  }

  lemma {:induction false} CallsNameTheirBatches(genesis: L1Batch, requests: seq<Request>, i: nat)
    requires i < |requests|
    ensures CallsOf(Initial(genesis), requests)[i].batch == requests[i].command.batch
  {
    CallAt(Initial(genesis), requests, i);
  }

  /**
    With overlap it fails: for any stored batch but genesis and any two kinds of command there is a history
    from the start whose two calls to L1 carry different metadata for that batch.
   */
  lemma {:induction false} OverlapReachesL1(config: Config, stored: StoredBatch, a: Kind, b: Kind)
    returns (es: seq<Step>)
    requires stored.header.number > 0
    ensures IsHistory(Started(config), es)
    ensures var calls := Calls(Result(Started(config), es));
            && |calls| == 2 && calls[0].batch.header.number == calls[1].batch.header.number == stored.header.number
            && calls[0].batch != calls[1].batch
  {
    var front := BothGenerate(Started(config), stored, a, b);
    var s := Result(Started(config), front);
    var back := BothAreSent(s, 0, 1);
    es := front + back;
    Continue(Started(config), front, back);
    var s' := Result(s, back);
    CallsNameTheirBatches(Genesis(s'.memo.config), s'.requests, 0);
    CallsNameTheirBatches(Genesis(s'.memo.config), s'.requests, 1);
    assert Generate(config, stored, 0).input.rootHash != Generate(config, stored, 1).input.rootHash;
  }

  lemma {:induction false} Continue(s: Sidecar, es: seq<Step>, more: seq<Step>)
    requires IsHistory(s, es) && IsHistory(Result(s, es), more)
    ensures IsHistory(s, es + more) && Result(s, es + more) == Result(Result(s, es), more)
    decreases |es|
  {
    if es == [] {
      assert es + more == more;
    } else {
      Continue(Take(s, es[0]), es[1..], more);
      assert (es + more)[1..] == es[1..] + more;
    }
  }
}
