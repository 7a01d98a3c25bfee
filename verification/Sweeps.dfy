/** What a sweep does to a batch of handles, told by the state it finds: no handle of a batch matters to another. */
module Sweeps {
  import opened Store
  import opened Calls

  /** The handles of a batch differ: they are members of one sorted set. */
  predicate Distinct(todo: seq<Handle>) {
    forall i, j :: 0 <= i < j < |todo| ==> todo[i] != todo[j]
  }

  /** A message that is there to be reaped. */
  predicate IsThere(st: Store, h: Handle) {
    h in st.visIndex && h in st.inflight
  }

  /** It has used up its attempts. */
  predicate IsSpent(st: Store, h: Handle, maxReceive: int) {
    IsThere(st, h) && st.inflight[h].fields.receiveCount >= maxReceive
  }

  /** How many of the handles are there to be reaped. */
  function Acted(st: Store, todo: seq<Handle>): nat {
    if |todo| == 0 then 0 else (if IsThere(st, todo[0]) then 1 else 0) + Acted(st, todo[1..])
  }

  /** The letters for the spent messages, in the order of the batch, each with the message's own body and group. */
  function Dead(st: Store, todo: seq<Handle>, maxReceive: int): seq<Letter> {
    if |todo| == 0 then []
    else
      (if IsSpent(st, todo[0], maxReceive)
       then [Letter(todo[0], st.inflight[todo[0]].fields.body, st.inflight[todo[0]].fields.group)] else [])
      + Dead(st, todo[1..], maxReceive)
  }

  /** The messages that have attempts left, in the order of the batch. */
  function Again(st: Store, todo: seq<Handle>, maxReceive: int): seq<Handle> {
    if |todo| == 0 then []
    else
      (if IsThere(st, todo[0]) && !IsSpent(st, todo[0], maxReceive) then [todo[0]] else [])
      + Again(st, todo[1..], maxReceive)
  }

  /** How many handles a sweep comes to: it stops at the first send that fails, which it does make. */
  function Reached(st: Store, todo: seq<Handle>, maxReceive: int, hasDlq: bool, sendOk: Handle -> bool): (n: nat)
    ensures n <= |todo|
  {
    if |todo| == 0 then 0
    else if hasDlq && IsSpent(st, todo[0], maxReceive) && !sendOk(todo[0]) then 1
    else 1 + Reached(st, todo[1..], maxReceive, hasDlq, sendOk)
  }

  predicate AllSendsWork(st: Store, todo: seq<Handle>, maxReceive: int, hasDlq: bool, sendOk: Handle -> bool) {
    hasDlq ==> forall i :: 0 <= i < |todo| && IsSpent(st, todo[i], maxReceive) ==> sendOk(todo[i])
  }

  predicate SameFor(st: Store, st': Store, h: Handle) {
    && (h in st'.inflight <==> h in st.inflight) && (h in st.inflight ==> st'.inflight[h] == st.inflight[h])
    && (h in st'.visIndex <==> h in st.visIndex)
  }

  lemma {:induction false} SameForAll(
    st: Store, st': Store, todo: seq<Handle>, maxReceive: int, hasDlq: bool, sendOk: Handle -> bool)
    requires forall h :: h in todo ==> SameFor(st, st', h)
    ensures Acted(st', todo) == Acted(st, todo)
    ensures Dead(st', todo, maxReceive) == Dead(st, todo, maxReceive)
    ensures Again(st', todo, maxReceive) == Again(st, todo, maxReceive)
    ensures Reached(st', todo, maxReceive, hasDlq, sendOk) == Reached(st, todo, maxReceive, hasDlq, sendOk)
    decreases |todo|
  {
    if |todo| > 0 {
      assert SameFor(st, st', todo[0]);
      SameForAll(st, st', todo[1..], maxReceive, hasDlq, sendOk);
    }
  }

  lemma ReapKeepsOthers(st: Store, h: Handle, maxReceive: int, g: Handle)
    requires g != h
    ensures SameFor(st, ReapOp(st, h, maxReceive).0, g)
  {
    ReapLeaves(st, h, maxReceive);
  }

  lemma TakesOfTail(todo: seq<Handle>, n: nat)
    requires 0 < n <= |todo|
    ensures todo[..n][1..] == todo[1..][..n - 1] && todo[..n][0] == todo[0] && |todo[..n]| > 0
  {
  }

  lemma TailIsDistinct(todo: seq<Handle>, g: Handle)
    requires Distinct(todo) && |todo| > 0 && g in todo[1..]
    ensures g != todo[0]
  {
    var i :| 0 <= i < |todo[1..]| && todo[1..][i] == g;
    assert todo[i + 1] == g;
  }

  /** The state of the handles after the first one of a batch was reaped: what is to be done with the rest is the same. */
  lemma RestIsSame(st: Store, todo: seq<Handle>, n: nat, maxReceive: int, hasDlq: bool, sendOk: Handle -> bool)
    requires Distinct(todo) && |todo| > 0 && n <= |todo| - 1
    ensures
      var st1, rest := ReapOp(st, todo[0], maxReceive).0, todo[1..];
      && Acted(st1, rest[..n]) == Acted(st, rest[..n]) && Dead(st1, rest[..n], maxReceive) == Dead(st, rest[..n], maxReceive)
      && Again(st1, rest[..n], maxReceive) == Again(st, rest[..n], maxReceive)
      && Reached(st1, rest, maxReceive, hasDlq, sendOk) == Reached(st, rest, maxReceive, hasDlq, sendOk)
  {
    var st1 := ReapOp(st, todo[0], maxReceive).0;
    forall g | g in todo[1..] ensures SameFor(st, st1, g) {
      TailIsDistinct(todo, g);
      ReapKeepsOthers(st, todo[0], maxReceive, g);
    }
    SameForAll(st, st1, todo[1..], maxReceive, hasDlq, sendOk);
    SameForAll(st, st1, todo[1..][..n], maxReceive, hasDlq, sendOk);
  }

  /** What a sweep has done after the first n handles: actions, letters and the redeliver list. */
  ghost predicate Did(st: Store, st': Store, done: Sweep, first: seq<Handle>, stopped: bool, maxReceive: int, hasDlq: bool) {
    && done.swept + (if stopped then 1 else 0) == Acted(st, first)
    && done.sent == (if hasDlq then Dead(st, first, maxReceive) else [])
    && st'.redeliver == st.redeliver + Again(st, first, maxReceive)
  }

  lemma ReapDoes(st: Store, h: Handle, maxReceive: int, hasDlq: bool)
    ensures
      var (st1, outcome) := ReapOp(st, h, maxReceive);
      && (outcome.Gone? <==> !IsThere(st, h)) && (outcome.DeadLetter? <==> IsSpent(st, h, maxReceive))
      && LettersFor(h, outcome, hasDlq) == (if hasDlq then Dead(st, [h], maxReceive) else [])
      && st1.redeliver == st.redeliver + Again(st, [h], maxReceive)
      && Acted(st, [h]) == if outcome.Gone? then 0 else 1
  {
    ReapLeaves(st, h, maxReceive);
    assert [h][1..] == [];
  }

  lemma ConsDoes(st: Store, h: Handle, rest: seq<Handle>, maxReceive: int)
    ensures Acted(st, [h] + rest) == Acted(st, [h]) + Acted(st, rest)
    ensures Dead(st, [h] + rest, maxReceive) == Dead(st, [h], maxReceive) + Dead(st, rest, maxReceive)
    ensures Again(st, [h] + rest, maxReceive) == Again(st, [h], maxReceive) + Again(st, rest, maxReceive)
  {
    assert ([h] + rest)[1..] == rest && [h][1..] == [];
  }

  lemma DidMore(st: Store, st1: Store, st2: Store, h: Handle, rest: seq<Handle>, whole: Sweep, done: Sweep, stopped: bool,
                maxReceive: int, hasDlq: bool)
    requires st1 == ReapOp(st, h, maxReceive).0 && Did(st1, st2, done, rest, stopped, maxReceive, hasDlq)
    requires Acted(st1, rest) == Acted(st, rest) && Dead(st1, rest, maxReceive) == Dead(st, rest, maxReceive)
    requires Again(st1, rest, maxReceive) == Again(st, rest, maxReceive)
    requires whole.swept == done.swept + Acted(st, [h])
    requires whole.sent == (if hasDlq then Dead(st, [h], maxReceive) else []) + done.sent
    ensures Did(st, st2, whole, [h] + rest, stopped, maxReceive, hasDlq)
  {
    ReapDoes(st, h, maxReceive, hasDlq);
    ConsDoes(st, h, rest, maxReceive);
  }

  /**
   A sweep of distinct handles, told by the state it finds. It works if and only if every send it owes does, and else stops
   after the first that fails. Of the handles it comes to, it counts those that were there, but not the one whose send
   failed; it sends one letter for each spent message if there is a dead-letter queue, with the message's body and group
   and in the order of the batch; and the others come to the tail of the redeliver list in that order.
   */
  lemma {:induction false} SweepDoes(st: Store, todo: seq<Handle>, maxReceive: int, hasDlq: bool, sendOk: Handle -> bool)
    requires Distinct(todo)
    ensures
      var (st', done) := SweepCall(st, todo, maxReceive, hasDlq, sendOk);
      && (done.ok <==> AllSendsWork(st, todo, maxReceive, hasDlq, sendOk))
      && Did(st, st', done, todo[..Reached(st, todo, maxReceive, hasDlq, sendOk)], !done.ok, maxReceive, hasDlq)
    decreases |todo|
  {
    if |todo| > 0 {
      ReapDoes(st, todo[0], maxReceive, hasDlq);
      var (st1, outcome) := ReapOp(st, todo[0], maxReceive);
      if hasDlq && IsSpent(st, todo[0], maxReceive) && !sendOk(todo[0]) {
        assert todo[..1] == [todo[0]];
      } else {
        var n := Reached(st, todo[1..], maxReceive, hasDlq, sendOk);
        var (st2, done) := SweepCall(st1, todo[1..], maxReceive, hasDlq, sendOk);
        RestIsSame(st, todo, n, maxReceive, hasDlq, sendOk);
        SweepDoes(st1, todo[1..], maxReceive, hasDlq, sendOk);
        SendsOfRest(st, todo, maxReceive, hasDlq, sendOk);
        assert todo[..n + 1] == [todo[0]] + todo[1..][..n];
        DidMore(st, st1, st2, todo[0], todo[1..][..n], SweepCall(st, todo, maxReceive, hasDlq, sendOk).1, done, !done.ok,
                maxReceive, hasDlq);
      }
    }
  }

  lemma SendsOfRest(st: Store, todo: seq<Handle>, maxReceive: int, hasDlq: bool, sendOk: Handle -> bool)
    requires Distinct(todo) && |todo| > 0
    ensures Distinct(todo[1..])
    ensures AllSendsWork(st, todo, maxReceive, hasDlq, sendOk) <==>
      && (hasDlq && IsSpent(st, todo[0], maxReceive) ==> sendOk(todo[0]))
      && AllSendsWork(ReapOp(st, todo[0], maxReceive).0, todo[1..], maxReceive, hasDlq, sendOk)
  {
    var st1 := ReapOp(st, todo[0], maxReceive).0;
    forall i | 1 <= i < |todo|
      ensures todo[1..][i - 1] == todo[i] && IsSpent(st1, todo[i], maxReceive) == IsSpent(st, todo[i], maxReceive)
    {
      ReapKeepsOthers(st, todo[0], maxReceive, todo[i]);
      assert SameFor(st, st1, todo[i]);
    }
    if AllSendsWork(st1, todo[1..], maxReceive, hasDlq, sendOk) && hasDlq {
      forall i | 1 <= i < |todo| && IsSpent(st, todo[i], maxReceive) ensures sendOk(todo[i]) {
        assert IsSpent(st1, todo[1..][i - 1], maxReceive);
      }
    }
  }
}
