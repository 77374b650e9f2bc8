/** What `Iterator::filter` and `Vec::retain` promise: the matching elements, all of them, in their old order. */
module Selections {
  /** The matching elements of `all` sit at the positions `at`, and `chosen` lists them from first to last. */
  ghost predicate SelectedAt<T>(all: seq<T>, p: T -> bool, chosen: seq<T>, at: seq<nat>) {
    && |at| == |chosen|
    && (forall k :: 0 <= k < |at| ==> at[k] < |all| && chosen[k] == all[at[k]])
    && (forall j, k :: 0 <= j < k < |at| ==> at[j] < at[k])
    && (forall i :: 0 <= i < |all| ==> (p(all[i]) <==> i in at))
  }

  ghost predicate IsSelection<T>(all: seq<T>, p: T -> bool, chosen: seq<T>) {
    exists at :: SelectedAt(all, p, chosen, at)
  }

  lemma {:induction false} SelectFromNothing<T>(p: T -> bool)
    ensures IsSelection([], p, [])
  {
    assert SelectedAt([], p, [], []);
  }

  /** The positions after another element has been put in front of the sequence. */
  function Shifted(at: seq<nat>, first: bool): (r: seq<nat>)
    ensures |r| == |at| + if first then 1 else 0
  {
    (if first then [0] else []) + seq(|at|, k requires 0 <= k < |at| => at[k] + 1)
  }

  lemma {:induction false} ShiftedAt(at: seq<nat>, first: bool, k: nat)
    requires k < |at|
    ensures var gap := if first then 1 else 0;
            Shifted(at, first)[gap + k] == at[k] + 1
  {
  }

  lemma {:induction false} ShiftedHolds(at: seq<nat>, first: bool, i: nat)
    ensures i in Shifted(at, first) <==> if i == 0 then first else i - 1 in at
  {
    var r, gap := Shifted(at, first), if first then 1 else 0;
    if i in r {
      var k :| 0 <= k < |r| && r[k] == i;
      if k >= gap {
        ShiftedAt(at, first, k - gap);
      }
    }
    if i > 0 && i - 1 in at {
      var k :| 0 <= k < |at| && at[k] == i - 1;
      ShiftedAt(at, first, k);
    }
    if i == 0 && first {
      assert r[0] == 0;
    }
  }

  /** Looking at one more element in front. */
  lemma {:induction false} SelectFirst<T>(all: seq<T>, p: T -> bool, rest: seq<T>)
    requires all != [] && IsSelection(all[1..], p, rest)
    ensures IsSelection(all, p, (if p(all[0]) then [all[0]] else []) + rest)
  {
    var tail :| SelectedAt(all[1..], p, rest, tail);
    SelectFirstAt(all, p, rest, tail);
  }

  lemma {:induction false} ShiftedIncreases(at: seq<nat>, first: bool)
    requires forall j, k :: 0 <= j < k < |at| ==> at[j] < at[k]
    ensures var r := Shifted(at, first); forall j, k :: 0 <= j < k < |r| ==> r[j] < r[k]
  {
    var r, gap := Shifted(at, first), if first then 1 else 0;
    forall j, k | 0 <= j < k < |r|
      ensures r[j] < r[k]
    {
      ShiftedAt(at, first, k - gap);
      if j >= gap {
        ShiftedAt(at, first, j - gap);
      }
    }
  }

  lemma {:induction false} ShiftedChooses<T>(all: seq<T>, first: bool, rest: seq<T>, tail: seq<nat>, k: nat)
    requires all != [] && |tail| == |rest| && k < |Shifted(tail, first)|
    requires forall i :: 0 <= i < |tail| ==> tail[i] < |all[1..]| && rest[i] == all[1..][tail[i]]
    ensures var at, chosen := Shifted(tail, first), (if first then [all[0]] else []) + rest;
            at[k] < |all| && chosen[k] == all[at[k]]
  {
    var gap := if first then 1 else 0;
    if k >= gap {
      ShiftedAt(tail, first, k - gap);
      assert rest[k - gap] == all[1..][tail[k - gap]];
    }
  }

  lemma {:induction false} SelectFirstAt<T>(all: seq<T>, p: T -> bool, rest: seq<T>, tail: seq<nat>)
    requires all != [] && SelectedAt(all[1..], p, rest, tail)
    ensures SelectedAt(all, p, (if p(all[0]) then [all[0]] else []) + rest, Shifted(tail, p(all[0])))
  {
    var first := p(all[0]);
    var at, chosen := Shifted(tail, first), (if first then [all[0]] else []) + rest;
    forall k | 0 <= k < |at|
      ensures at[k] < |all| && chosen[k] == all[at[k]]
    {
      ShiftedChooses(all, first, rest, tail, k);
    }
    ShiftedIncreases(tail, first);
    forall i | 0 <= i < |all|
      ensures p(all[i]) <==> i in at
    {
      FirstOrLater(all, p, rest, tail, i);
    }
  }

  lemma {:induction false} FirstOrLater<T>(all: seq<T>, p: T -> bool, rest: seq<T>, tail: seq<nat>, i: nat)
    requires i < |all| && SelectedAt(all[1..], p, rest, tail)
    ensures p(all[i]) <==> i in Shifted(tail, p(all[0]))
  {
    ShiftedHolds(tail, p(all[0]), i);
    if i > 0 {
      assert all[i] == all[1..][i - 1];
    }
  }

  /** The matching elements themselves. */
  function Matching<T>(all: seq<T>, p: T -> bool): seq<T> {
    if all == [] then [] else (if p(all[0]) then [all[0]] else []) + Matching(all[1..], p)
  }

  lemma {:induction false} MatchingIsSelection<T>(all: seq<T>, p: T -> bool)
    ensures IsSelection(all, p, Matching(all, p))
  {
    if all == [] {
      SelectFromNothing(p);
    } else {
      MatchingIsSelection(all[1..], p);
      SelectFirst(all, p, Matching(all[1..], p));
    }
  }

  lemma {:induction false} MatchingAppend<T>(a: seq<T>, b: seq<T>, p: T -> bool)
    ensures Matching(a + b, p) == Matching(a, p) + Matching(b, p)
  {
    if a == [] {
      assert a + b == b;
    } else {
      var all, rest := a + b, a[1..];
      assert all[1..] == rest + b && all[0] == a[0];
      MatchingAppend(rest, b, p);
      var head := if p(a[0]) then [a[0]] else [];
      assert head + (Matching(rest, p) + Matching(b, p)) == head + Matching(rest, p) + Matching(b, p);
    }
  }

  lemma {:induction false} MatchingPush<T>(all: seq<T>, x: T, p: T -> bool)
    ensures Matching(all + [x], p) == Matching(all, p) + if p(x) then [x] else []
  {
    MatchingAppend(all, [x], p);
    assert [x][1..] == [];
    assert Matching([x], p) == if p(x) then [x] else [];
  }

  /** Only what the condition says of the elements matters. */
  lemma {:induction false} SelectionExt<T>(all: seq<T>, p: T -> bool, q: T -> bool, chosen: seq<T>)
    requires IsSelection(all, p, chosen) && forall i :: 0 <= i < |all| ==> (p(all[i]) <==> q(all[i]))
    ensures IsSelection(all, q, chosen)
  {
    var at :| SelectedAt(all, p, chosen, at);
    assert SelectedAt(all, q, chosen, at);
  }
}
