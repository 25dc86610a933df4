// The controls: in the same machine without the serialisation write, any number of individually affordable
// debits all commit; and without the key index, any number of submissions of one key are all applied.
module Necessity {
  import opened Domain
  import opened Specification
  import opened Protocol
  import opened Invariant

  /** The entries known so far carry ids that have been issued. */
  predicate Known(entries: seq<Entry>, issued: set<TransactionId>) {
    forall i | 0 <= i < |entries| :: entries[i].transaction in issued
  }

  ghost predicate AllKnown(s: State) {
    Known(s.db.entries, s.issued) && forall o | o in s.calls :: Known(s.calls[o].staged.entries, s.issued)
  }

  /** Call r is idle with an acceptable request, and neither mechanism of this design makes it clash with what
      other calls have staged. */
  ghost predicate Clear(design: Design, s: State, r: CallId) {
    && r in s.calls && s.calls[r].phase.Idle? && s.calls[r].staged == NOTHING
    && Decide(s.db, s.calls[r].q) == Accept
    && (design.serialise ==> !IsUser(s.db.accounts, s.calls[r].q.source))
    && (design.keyIndex ==> !KeyStaged(s, r, s.calls[r].q.key))
  }

  /** Call r is about to commit its header and entries, and has staged no account document. */
  predicate Staged(s: State, r: CallId, h: Header) {
    && r in s.calls && s.calls[r].phase == CommitAll(h) && h == HeaderFor(s.calls[r].q, h.id)
    && s.calls[r].staged == Db(map[], [h], [DebitFor(h), CreditFor(h)])
  }

  /** From s to s' only call r and the issued ids have changed. */
  predicate OnlyCall(s: State, r: CallId, s': State) {
    r in s.calls && r in s'.calls && s'.calls[r].q == s.calls[r].q
    && s' == s.(calls := s.calls[r := s'.calls[r]], issued := s'.issued) && s.issued <= s'.issued
  }

  /** Inside its transaction, on the current version, call r has not written anything yet. */
  predicate Reading(s: State, r: CallId, phase: Phase) {
    r in s.calls && s.calls[r].phase == phase && s.calls[r].view == s.db && s.calls[r].staged == NOTHING
  }

  lemma SeesCurrent(s: State, r: CallId, phase: Phase)
    requires Reading(s, r, phase)
    ensures Seen(s.calls[r]) == s.db
  {
    assert s.db.accounts + map[] == s.db.accounts;
    assert s.db.headers + [] == s.db.headers && s.db.entries + [] == s.db.entries;
  }

  lemma ReadKey(design: Design, s: State, r: CallId)
    requires r in s.calls && s.calls[r].phase.Idle? && Decide(s.db, s.calls[r].q) == Accept
    ensures Reading(Perform(design, s, r, GO), r, CheckKey) && OnlyCall(s, r, Perform(design, s, r, GO))
  {
  }

  lemma PassKey(design: Design, s: State, r: CallId)
    requires Reading(s, r, CheckKey) && Decide(s.db, s.calls[r].q) == Accept
    ensures Reading(Perform(design, s, r, GO), r, LoadAccounts) && OnlyCall(s, r, Perform(design, s, r, GO))
  {
    SeesCurrent(s, r, CheckKey);
  }

  lemma PassLoad(design: Design, s: State, r: CallId)
    requires Reading(s, r, LoadAccounts) && Decide(s.db, s.calls[r].q) == Accept
    requires design.serialise ==> !IsUser(s.db.accounts, s.calls[r].q.source)
    ensures var s' := Perform(design, s, r, GO);
            OnlyCall(s, r, s') && (Reading(s', r, CheckBalance) || Reading(s', r, WriteHeader))
            && (Reading(s', r, CheckBalance) ==> IsUser(s.db.accounts, s.calls[r].q.source))
  {
    SeesCurrent(s, r, LoadAccounts);
  }

  lemma PassBalance(design: Design, s: State, r: CallId)
    requires Reading(s, r, CheckBalance) && Decide(s.db, s.calls[r].q) == Accept
    requires IsUser(s.db.accounts, s.calls[r].q.source)
    ensures Reading(Perform(design, s, r, GO), r, WriteHeader) && OnlyCall(s, r, Perform(design, s, r, GO))
  {
    SeesCurrent(s, r, CheckBalance);
  }

  lemma PassHeader(design: Design, s: State, r: CallId, id: TransactionId)
    requires Reading(s, r, WriteHeader) && Decide(s.db, s.calls[r].q) == Accept && id !in s.issued
    requires design.keyIndex ==> !KeyStaged(s, r, s.calls[r].q.key)
    ensures var h := HeaderFor(s.calls[r].q, id); var s' := Perform(design, s, r, Choice(id, false, false));
            && OnlyCall(s, r, s') && s'.issued == s.issued + {id}
            && s'.calls[r].phase == WriteEntries(h) && s'.calls[r].staged == Db(map[], [h], [])
  {
  }

  lemma PassEntries(design: Design, s: State, r: CallId, h: Header, issued: set<TransactionId>)
    requires r in s.calls && s.calls[r].phase == WriteEntries(h) && s.calls[r].staged == Db(map[], [h], [])
    requires h == HeaderFor(s.calls[r].q, h.id) && h.id !in issued && h.id in s.issued
    requires Known(s.db.entries, issued)
    requires forall o | o in s.calls && o != r :: Known(s.calls[o].staged.entries, issued)
    ensures Staged(Perform(design, s, r, GO), r, h) && OnlyCall(s, r, Perform(design, s, r, GO))
  {
    forall o | o in s.calls && o != r
      ensures !EntriesRejected(s.calls[o].staged.entries, h)
    {
      assert Known(s.calls[o].staged.entries, issued);
    }
  }

  /** The steps stage the writes of call r with header h and touch nothing else. */
  predicate Stages(design: Design, s: State, r: CallId, steps: seq<Step>, h: Header) {
    && Legal(design, s, steps)
    && Staged(Execute(design, s, steps), r, h)
    && OnlyCall(s, r, Execute(design, s, steps))
    && h.id in Execute(design, s, steps).issued
  }

  lemma Prepend(design: Design, s: State, r: CallId, choice: Choice, s1: State, rest: seq<Step>, h: Header)
    requires Enabled(s, Act(r, choice)) && s1 == Perform(design, s, r, choice)
    requires OnlyCall(s, r, s1) && Stages(design, s1, r, rest, h)
    ensures Stages(design, s, r, [Act(r, choice)] + rest, h)
  {
    assert ([Act(r, choice)] + rest)[1..] == rest;
  }

  /** The open transaction of call r can go on without a conflict. */
  ghost predicate Unblocked(design: Design, s: State, r: CallId)
    requires r in s.calls
  {
    && Decide(s.db, s.calls[r].q) == Accept && AllKnown(s)
    && (design.serialise ==> !IsUser(s.db.accounts, s.calls[r].q.source))
    && (design.keyIndex ==> !KeyStaged(s, r, s.calls[r].q.key))
  }

  lemma StaysUnblocked(design: Design, s: State, r: CallId, s': State)
    requires r in s.calls && Unblocked(design, s, r) && OnlyCall(s, r, s') && s'.calls[r].staged == NOTHING
    ensures Unblocked(design, s', r)
  {
    forall o | o in s'.calls
      ensures Known(s'.calls[o].staged.entries, s'.issued)
    {
      assert Known(s.calls[o].staged.entries, s.issued);
    }
    assert forall o | o in s'.calls && o != r :: s'.calls[o] == s.calls[o];
  }

  lemma StageFromHeader(design: Design, s: State, r: CallId) returns (steps: seq<Step>, h: Header)
    requires Reading(s, r, WriteHeader) && Unblocked(design, s, r)
    ensures Stages(design, s, r, steps, h)
  {
    var id := FreshId(s.issued);
    h := HeaderFor(s.calls[r].q, id);
    var choice := Choice(id, false, false);
    PassHeader(design, s, r, id);
    var s1 := Perform(design, s, r, choice);
    PassEntries(design, s1, r, h, s.issued);
    Prepend(design, s1, r, GO, Perform(design, s1, r, GO), [], h);
    Prepend(design, s, r, choice, s1, [Act(r, GO)] + [], h);
    steps := [Act(r, choice)] + ([Act(r, GO)] + []);
  }

  lemma StageFromBalance(design: Design, s: State, r: CallId) returns (steps: seq<Step>, h: Header)
    requires Reading(s, r, CheckBalance) && Unblocked(design, s, r) && IsUser(s.db.accounts, s.calls[r].q.source)
    ensures Stages(design, s, r, steps, h)
  {
    PassBalance(design, s, r);
    var s1 := Perform(design, s, r, GO);
    StaysUnblocked(design, s, r, s1);
    steps, h := StageFromHeader(design, s1, r);
    Prepend(design, s, r, GO, s1, steps, h);
    steps := [Act(r, GO)] + steps;
  }

  lemma StageFromLoad(design: Design, s: State, r: CallId) returns (steps: seq<Step>, h: Header)
    requires Reading(s, r, LoadAccounts) && Unblocked(design, s, r)
    ensures Stages(design, s, r, steps, h)
  {
    PassLoad(design, s, r);
    var s1 := Perform(design, s, r, GO);
    StaysUnblocked(design, s, r, s1);
    if Reading(s1, r, CheckBalance) {
      steps, h := StageFromBalance(design, s1, r);
    } else {
      steps, h := StageFromHeader(design, s1, r);
    }
    Prepend(design, s, r, GO, s1, steps, h);
    steps := [Act(r, GO)] + steps;
  }

  /** A clear call can stage everything without meeting a conflict. */
  lemma StageOne(design: Design, s: State, r: CallId) returns (steps: seq<Step>, h: Header)
    requires Clear(design, s, r) && AllKnown(s)
    ensures Stages(design, s, r, steps, h)
  {
    ReadKey(design, s, r);
    var s1 := Perform(design, s, r, GO);
    StaysUnblocked(design, s, r, s1);
    PassKey(design, s1, r);
    var s2 := Perform(design, s1, r, GO);
    StaysUnblocked(design, s1, r, s2);
    steps, h := StageFromLoad(design, s2, r);
    Prepend(design, s1, r, GO, s2, steps, h);
    Prepend(design, s, r, GO, s1, [Act(r, GO)] + steps, h);
    steps := [Act(r, GO)] + ([Act(r, GO)] + steps);
  }

  // ----- Many calls at once -----

  predicate Distinct(rs: seq<CallId>) {
    forall i, j | 0 <= i < j < |rs| :: rs[i] != rs[j]
  }

  ghost predicate AllClear(design: Design, s: State, rs: seq<CallId>) {
    && Distinct(rs)
    && (forall i | 0 <= i < |rs| :: Clear(design, s, rs[i]))
    && (design.keyIndex ==>
          forall i, j | 0 <= i < j < |rs| :: s.calls[rs[i]].q.key != s.calls[rs[j]].q.key)
  }

  /** Staging one call leaves the others clear. */
  lemma OthersStayClear(design: Design, s: State, rs: seq<CallId>, s1: State, h: Header)
    requires rs != [] && AllClear(design, s, rs) && OnlyCall(s, rs[0], s1) && Staged(s1, rs[0], h)
    ensures AllClear(design, s1, rs[1..])
  {
    var rest := rs[1..];
    forall i | 0 <= i < |rest|
      ensures Clear(design, s1, rest[i])
    {
      assert Clear(design, s, rs[i + 1]);
      assert rs[0] != rs[i + 1];
      if design.keyIndex {
        forall o | o in s1.calls && o != rest[i]
          ensures !UsedKey(s1.calls[o].staged.headers, s1.calls[rest[i]].q.key)
        {
          if o != rs[0] {
            assert s.calls[o] == s1.calls[o];
          }
        }
      }
    }
  }

  lemma StagingKeepsKnown(s: State, r: CallId, s1: State, h: Header)
    requires AllKnown(s) && OnlyCall(s, r, s1) && Staged(s1, r, h) && h.id in s1.issued
    ensures AllKnown(s1)
  {
    forall o | o in s1.calls
      ensures Known(s1.calls[o].staged.entries, s1.issued)
    {
      if o != r {
        assert Known(s.calls[o].staged.entries, s.issued);
      }
    }
  }

  ghost predicate AllStaged(s: State, rs: seq<CallId>, hs: seq<Header>) {
    |hs| == |rs| && forall i | 0 <= i < |rs| :: Staged(s, rs[i], hs[i])
  }

  /** From s to s' only the calls rs and the issued ids have changed. */
  ghost predicate OnlyCalls(s: State, rs: seq<CallId>, s': State) {
    && s'.db == s.db && s'.calls.Keys == s.calls.Keys
    && (forall r | r in s.calls :: s'.calls[r].q == s.calls[r].q)
    && (forall r | r in s.calls && r !in rs :: s'.calls[r] == s.calls[r])
  }

  /** All clear calls can stage everything before any of them commits. */
  lemma {:induction false} StageAll(design: Design, s: State, rs: seq<CallId>)
    returns (steps: seq<Step>, hs: seq<Header>)
    requires AllClear(design, s, rs) && AllKnown(s)
    ensures Legal(design, s, steps)
    ensures AllStaged(Execute(design, s, steps), rs, hs) && OnlyCalls(s, rs, Execute(design, s, steps))
    decreases |rs|
  {
    if rs == [] {
      steps, hs := [], [];
    } else {
      assert Clear(design, s, rs[0]);
      var first, h := StageOne(design, s, rs[0]);
      var s1 := Execute(design, s, first);
      OthersStayClear(design, s, rs, s1, h);
      StagingKeepsKnown(s, rs[0], s1, h);
      var rest, hs' := StageAll(design, s1, rs[1..]);
      ExecuteAppend(design, s, first, rest);
      steps, hs := first + rest, [h] + hs';
      StagedTogether(s, rs, h, s1, hs', Execute(design, s1, rest));
    }
  }

  lemma StagedTogether(s: State, rs: seq<CallId>, h: Header, s1: State, hs: seq<Header>, s': State)
    requires rs != [] && Distinct(rs)
    requires OnlyCall(s, rs[0], s1) && Staged(s1, rs[0], h)
    requires AllStaged(s', rs[1..], hs) && OnlyCalls(s1, rs[1..], s')
    ensures AllStaged(s', rs, [h] + hs) && OnlyCalls(s, rs, s')
  {
    assert rs[0] !in rs[1..];
    forall i | 0 <= i < |rs|
      ensures Staged(s', rs[i], ([h] + hs)[i])
    {
      if i > 0 {
        assert Staged(s', rs[1..][i - 1], hs[i - 1]);
      }
    }
    forall r | r in s.calls && r !in rs
      ensures s'.calls[r] == s.calls[r]
    {
      assert r !in rs[1..] && r != rs[0];
    }
  }

  /** The calls rs have committed the headers hs on top of what was there; other calls are as they were. */
  ghost predicate AllCommitted(s: State, rs: seq<CallId>, hs: seq<Header>, s': State) {
    && |hs| == |rs|
    && s'.db == Db(s.db.accounts, s.db.headers + hs, s.db.entries + Pairs(hs))
    && (forall i | 0 <= i < |rs| :: CommittedAs(s', rs[i], hs[i]))
    && (forall r | r in s.calls && r !in rs :: r in s'.calls && s'.calls[r] == s.calls[r])
  }

  predicate CommittedAs(s: State, r: CallId, h: Header) {
    r in s.calls && s.calls[r].phase == Done(Committed(h, s.calls[r].attempts))
  }

  lemma OneMoreCommitted(s: State, rs: seq<CallId>, hs: seq<Header>, s1: State, s': State)
    requires rs != [] && Distinct(rs) && |hs| == |rs|
    requires var n := |rs| - 1;
             && AllCommitted(s, rs[..n], hs[..n], s1)
             && s'.db == Db(s1.db.accounts, s1.db.headers + [hs[n]],
                            s1.db.entries + [DebitFor(hs[n]), CreditFor(hs[n])])
             && CommittedAs(s', rs[n], hs[n])
             && forall o | o in s1.calls && o != rs[n] :: o in s'.calls && s'.calls[o] == s1.calls[o]
    ensures AllCommitted(s, rs, hs, s')
  {
    var n := |rs| - 1;
    assert hs == hs[..n] + [hs[n]] && rs == rs[..n] + [rs[n]];
    assert s.db.headers + hs[..n] + [hs[n]] == s.db.headers + hs;
    assert s.db.entries + Pairs(hs[..n]) + [DebitFor(hs[n]), CreditFor(hs[n])] == s.db.entries + Pairs(hs);
    forall i | 0 <= i < |rs|
      ensures CommittedAs(s', rs[i], hs[i])
    {
      if i < n {
        assert CommittedAs(s1, rs[..n][i], hs[..n][i]);
      }
    }
  }

  /** What is staged commits without any further check: every call succeeds and its header is appended. */
  lemma {:induction false} CommitEach(design: Design, s: State, rs: seq<CallId>, hs: seq<Header>)
    returns (steps: seq<Step>)
    requires Distinct(rs) && AllStaged(s, rs, hs)
    ensures Legal(design, s, steps) && AllCommitted(s, rs, hs, Execute(design, s, steps))
    decreases |rs|
  {
    if rs == [] {
      steps := [];
      assert s.db.headers + hs == s.db.headers && s.db.entries + Pairs(hs) == s.db.entries;
    } else {
      var n := |rs| - 1;
      assert AllStaged(s, rs[..n], hs[..n]) by {
        assert forall i | 0 <= i < n :: Staged(s, rs[i], hs[i]);
      }
      var first := CommitEach(design, s, rs[..n], hs[..n]);
      var s1 := Execute(design, s, first);
      assert Staged(s, rs[n], hs[n]) && rs[n] !in rs[..n];
      CommitLast(design, s1, rs[n], hs[n]);
      ExecuteAppend(design, s, first, [Act(rs[n], GO)]);
      steps := first + [Act(rs[n], GO)];
      OneMoreCommitted(s, rs, hs, s1, Execute(design, s1, [Act(rs[n], GO)]));
    }
  }

  lemma CommitLast(design: Design, s: State, r: CallId, h: Header)
    requires Staged(s, r, h)
    ensures Legal(design, s, [Act(r, GO)])
    ensures var s' := Execute(design, s, [Act(r, GO)]);
            && s'.db == Db(s.db.accounts, s.db.headers + [h], s.db.entries + [DebitFor(h), CreditFor(h)])
            && CommittedAs(s', r, h)
            && forall o | o in s.calls && o != r :: o in s'.calls && s'.calls[o] == s.calls[o]
  {
    assert s.db.accounts + map[] == s.db.accounts;
    assert [Act(r, GO)][1..] == [];
  }

  /** All clear calls can commit, each having checked the same version: for any number of them, a schedule
      exists in which every one succeeds. */
  lemma CommitTogether(design: Design, s: State, rs: seq<CallId>) returns (steps: seq<Step>, hs: seq<Header>)
    requires AllClear(design, s, rs) && AllKnown(s)
    ensures Legal(design, s, steps) && |hs| == |rs|
    ensures var s' := Execute(design, s, steps);
            && s'.db == Db(s.db.accounts, s.db.headers + hs, s.db.entries + Pairs(hs))
            && forall i | 0 <= i < |rs| ::
                 && rs[i] in s.calls && hs[i] == HeaderFor(s.calls[rs[i]].q, hs[i].id)
                 && CommittedAs(s', rs[i], hs[i])
  {
    var first;
    first, hs := StageAll(design, s, rs);
    var s1 := Execute(design, s, first);
    forall i | 0 <= i < |rs|
      ensures rs[i] in s.calls && hs[i] == HeaderFor(s.calls[rs[i]].q, hs[i].id)
    {
      assert Staged(s1, rs[i], hs[i]);
      assert Clear(design, s, rs[i]);
    }
    var rest := CommitEach(design, s1, rs, hs);
    ExecuteAppend(design, s, first, rest);
    steps := first + rest;
  }

  /** What requests move in all. */
  function TotalAmount(qs: seq<Request>): int {
    if qs == [] then 0 else TotalAmount(qs[..|qs| - 1]) + qs[|qs| - 1].amount
  }

  lemma OneMoreTime(n: nat, amount: int)
    ensures (n + 1) * amount == n * amount + amount
  {
  }

  lemma {:induction false} TotalOfEqualAmounts(qs: seq<Request>, amount: int)
    requires forall i | 0 <= i < |qs| :: qs[i].amount == amount
    ensures TotalAmount(qs) == |qs| * amount
  {
    if qs != [] {
      TotalOfEqualAmounts(qs[..|qs| - 1], amount);
      OneMoreTime(|qs| - 1, amount);
    }
  }

  /** The headers hs were committed for the requests qs, each of which debits account a. */
  ghost predicate DebitHeaders(hs: seq<Header>, qs: seq<Request>, a: AccountId) {
    && |hs| == |qs|
    && forall i | 0 <= i < |hs| :: hs[i] == HeaderFor(qs[i], hs[i].id) && qs[i].source == a && qs[i].destination != a
  }

  lemma {:induction false} BalanceOfManyDebits(entries: seq<Entry>, hs: seq<Header>, qs: seq<Request>, a: AccountId)
    requires DebitHeaders(hs, qs, a)
    ensures Balance(entries + Pairs(hs), a) == Balance(entries, a) - TotalAmount(qs)
    decreases |hs|
  {
    if hs == [] {
      assert entries + Pairs(hs) == entries;
    } else {
      var n := |hs| - 1;
      BalanceOfManyDebits(entries, hs[..n], qs[..n], a);
      BalanceOfPair(entries + Pairs(hs[..n]), hs[n], a);
      assert entries + Pairs(hs[..n]) + [DebitFor(hs[n]), CreditFor(hs[n])] == entries + Pairs(hs);
    }
  }

  // ----- The two controls -----

  const UNSERIALISED := Design(false, true)

  /** Without the serialisation write: whenever calls rs wait with debits qs of one account, each of them
      affordable on its own and with a key of its own, a schedule exists in which all of them commit and the
      balance falls by their total, however far below zero that is. */
  lemma {:induction false} WithoutSerialisationAllCommit(s: State, rs: seq<CallId>, qs: seq<Request>, a: AccountId)
    returns (steps: seq<Step>)
    requires AllClear(UNSERIALISED, s, rs) && AllKnown(s) && |qs| == |rs|
    requires forall i | 0 <= i < |rs| :: rs[i] in s.calls && s.calls[rs[i]].q == qs[i] && qs[i].source == a
    ensures Legal(UNSERIALISED, s, steps)
    ensures var s' := Execute(UNSERIALISED, s, steps);
            && Balance(s'.db.entries, a) == Balance(s.db.entries, a) - TotalAmount(qs)
            && forall i | 0 <= i < |rs| ::
                 rs[i] in s'.calls && s'.calls[rs[i]].phase.Done? && s'.calls[rs[i]].phase.outcome.Committed?
  {
    var hs;
    steps, hs := CommitTogether(UNSERIALISED, s, rs);
    forall i | 0 <= i < |hs|
      ensures hs[i] == HeaderFor(qs[i], hs[i].id) && qs[i].destination != a
    {
      assert Clear(UNSERIALISED, s, rs[i]);
    }
    BalanceOfManyDebits(s.db.entries, hs, qs, a);
  }

  function Copies(q: Request, n: nat): seq<Request> {
    seq(n, i requires 0 <= i < n => q)
  }

  /** Without the key index: whenever calls rs wait to submit one request, a schedule exists in which all of
      them are applied, under one key. If the design still has the serialisation write, the source must be a
      SYSTEM account (see Clear): that write separates debits of a USER source whatever their keys. */
  lemma WithoutKeyIndexAllApply(design: Design, s: State, rs: seq<CallId>, q: Request) returns (steps: seq<Step>)
    requires !design.keyIndex && AllClear(design, s, rs) && AllKnown(s)
    requires forall i | 0 <= i < |rs| :: rs[i] in s.calls && s.calls[rs[i]].q == q
    ensures Legal(design, s, steps)
    ensures var s' := Execute(design, s, steps);
            && |s'.db.headers| == |s.db.headers| + |rs|
            && (forall n | |s.db.headers| <= n < |s'.db.headers| ::
                  s'.db.headers[n] == HeaderFor(q, s'.db.headers[n].id))
            && Balance(s'.db.entries, q.source) == Balance(s.db.entries, q.source) - |rs| * q.amount
            && forall i | 0 <= i < |rs| ::
                 rs[i] in s'.calls && s'.calls[rs[i]].phase.Done? && s'.calls[rs[i]].phase.outcome.Committed?
  {
    var hs;
    steps, hs := CommitTogether(design, s, rs);
    forall i | 0 <= i < |hs|
      ensures hs[i] == HeaderFor(q, hs[i].id) && q.source != q.destination
    {
      assert Clear(design, s, rs[i]);
    }
    var qs := Copies(q, |rs|);
    BalanceOfManyDebits(s.db.entries, hs, qs, q.source);
    TotalOfEqualAmounts(qs, q.amount);
  }

  // ----- The hypotheses can be met, from a sound ledger, for every N -----

  lemma {:induction false} PairsKnown(headers: seq<Header>, issued: set<TransactionId>)
    requires forall i | 0 <= i < |headers| :: headers[i].id in issued
    ensures Known(Pairs(headers), issued)
  {
    if headers != [] {
      PairsKnown(headers[..|headers| - 1], issued);
    }
  }

  /** Submit requests qs under the call ids 0, 1, 2 and so on. */
  function Submissions(qs: seq<Request>): seq<Step> {
    seq(|qs|, i requires 0 <= i < |qs| => Submit(i, qs[i]))
  }

  /** After the submissions every call waits, and nothing else has happened. */
  lemma {:induction false} SubmitAll(design: Design, db: Db, qs: seq<Request>)
    requires forall i | 0 <= i < |qs| :: qs[i].source != qs[i].destination
    ensures Legal(design, Start(db), Submissions(qs))
    ensures var s := Execute(design, Start(db), Submissions(qs));
            && s.db == db && s.issued == Start(db).issued
            && (forall r | r in s.calls :: r < |qs|)
            && forall i | 0 <= i < |qs| ::
                 i in s.calls && s.calls[i].phase.Idle? && s.calls[i].q == qs[i] && s.calls[i].staged == NOTHING
    decreases |qs|
  {
    if qs == [] {
      assert Submissions(qs) == [];
    } else {
      var n := |qs| - 1;
      SubmitAll(design, db, qs[..n]);
      var s1 := Execute(design, Start(db), Submissions(qs[..n]));
      var last := [Submit(n, qs[n])];
      assert last[1..] == [];
      assert Legal(design, s1, last);
      ExecuteAppend(design, Start(db), Submissions(qs[..n]), last);
      assert Submissions(qs) == Submissions(qs[..n]) + last;
    }
  }

  function Ids(n: nat): seq<CallId> {
    seq(n, i requires 0 <= i < n => i)
  }

  lemma SubmittedAreKnown(design: Design, db: Db, qs: seq<Request>)
    requires Sound(db) && forall i | 0 <= i < |qs| :: qs[i].source != qs[i].destination
    ensures Legal(design, Start(db), Submissions(qs)) && AllKnown(Execute(design, Start(db), Submissions(qs)))
  {
    SubmitAll(design, db, qs);
    PairsKnown(db.headers, Start(db).issued);
  }

  /** Acceptable requests that wait together on a sound ledger are clear, if this design's mechanisms do not
      set them against each other. */
  lemma SubmittedAreClear(design: Design, db: Db, qs: seq<Request>)
    requires Sound(db) && forall i | 0 <= i < |qs| :: Decide(db, qs[i]) == Accept
    requires design.serialise ==> forall i | 0 <= i < |qs| :: !IsUser(db.accounts, qs[i].source)
    requires design.keyIndex ==> forall i, j | 0 <= i < j < |qs| :: qs[i].key != qs[j].key
    ensures Legal(design, Start(db), Submissions(qs))
    ensures var s := Execute(design, Start(db), Submissions(qs));
            && s.db == db && AllClear(design, s, Ids(|qs|)) && AllKnown(s)
            && forall i | 0 <= i < |qs| :: i in s.calls && s.calls[i].q == qs[i]
  {
    SubmitAll(design, db, qs);
    SubmittedAreKnown(design, db, qs);
    var s := Execute(design, Start(db), Submissions(qs));
    forall i | 0 <= i < |qs|
      ensures Clear(design, s, i)
    {
      assert forall o | o in s.calls :: s.calls[o].staged == NOTHING;
    }
  }

  /** From every sound ledger without the serialisation write: if each of any number of debits of one account is
      acceptable on its own and they have different keys, a run exists in which all of them commit. When their
      total exceeds the balance, that run overdraws the account. */
  lemma {:induction false} WriteSkew(db: Db, qs: seq<Request>, a: AccountId) returns (steps: seq<Step>)
    requires Sound(db)
    requires forall i | 0 <= i < |qs| :: Decide(db, qs[i]) == Accept && qs[i].source == a
    requires forall i, j | 0 <= i < j < |qs| :: qs[i].key != qs[j].key
    ensures Legal(UNSERIALISED, Start(db), steps)
    ensures var s := Execute(UNSERIALISED, Start(db), steps);
            && Balance(s.db.entries, a) == Balance(db.entries, a) - TotalAmount(qs)
            && forall i | 0 <= i < |qs| :: i in s.calls && s.calls[i].phase.Done? && s.calls[i].phase.outcome.Committed?
  {
    SubmittedAreClear(UNSERIALISED, db, qs);
    var s := Execute(UNSERIALISED, Start(db), Submissions(qs));
    var more := WithoutSerialisationAllCommit(s, Ids(|qs|), qs, a);
    ExecuteAppend(UNSERIALISED, Start(db), Submissions(qs), more);
    steps := Submissions(qs) + more;
    var s' := Execute(UNSERIALISED, Start(db), steps);
    forall i | 0 <= i < |qs|
      ensures i in s'.calls && s'.calls[i].phase.Done? && s'.calls[i].phase.outcome.Committed?
    {
      assert Ids(|qs|)[i] == i;
    }
  }

  /** From every sound ledger without the key index: for every N, N submissions of one acceptable request can
      all be applied, with the serialisation write in place if the source is a SYSTEM account and without it
      for every source. */
  lemma {:induction false} DuplicateApplication(design: Design, db: Db, q: Request, n: nat)
    returns (steps: seq<Step>)
    requires Sound(db) && Decide(db, q) == Accept
    requires !design.keyIndex && (design.serialise ==> !IsUser(db.accounts, q.source))
    ensures Legal(design, Start(db), steps)
    ensures var s := Execute(design, Start(db), steps);
            && |s.db.headers| == |db.headers| + n
            && (forall k | |db.headers| <= k < |s.db.headers| ::
                  s.db.headers[k] == HeaderFor(q, s.db.headers[k].id))
            && Balance(s.db.entries, q.source) == Balance(db.entries, q.source) - n * q.amount
            && forall i | 0 <= i < n :: i in s.calls && s.calls[i].phase.Done? && s.calls[i].phase.outcome.Committed?
  {
    var qs := Copies(q, n);
    SubmittedAreClear(design, db, qs);
    var s := Execute(design, Start(db), Submissions(qs));
    var more := WithoutKeyIndexAllApply(design, s, Ids(n), q);
    ExecuteAppend(design, Start(db), Submissions(qs), more);
    steps := Submissions(qs) + more;
    var s' := Execute(design, Start(db), steps);
    forall i | 0 <= i < n
      ensures i in s'.calls && s'.calls[i].phase.Done? && s'.calls[i].phase.outcome.Committed?
    {
      assert Ids(n)[i] == i;
    }
  }

  const BOUNDARY: Account := Account(None, SYSTEM, "USD", ACTIVE, None)
  const HOLDER: Account := Account(Some(0), USER, "USD", ACTIVE, None)

  /** A ledger with a boundary account 0 and two holders 1 and 2, of which holder 1 has been funded. */
  function FundedLedger(balance: int): Db {
    AtomicTransfer(Db(map[0 := BOUNDARY, 1 := HOLDER, 2 := HOLDER], [], []),
                   Request("fund-0000", FUNDING, 0, 1, balance, "USD", None), 0)
  }

  lemma FundedLedgerIsSound(balance: int)
    requires balance > 0
    ensures Sound(FundedLedger(balance)) && Balance(FundedLedger(balance).entries, 1) == balance
  {
    var empty := Db(map[0 := BOUNDARY, 1 := HOLDER, 2 := HOLDER], [], []);
    var q := Request("fund-0000", FUNDING, 0, 1, balance, "USD", None);
    EmptyLedgerIsSound(empty.accounts);
    assert IsKey(q.key) && WellFormed(q);
    TransferKeepsSound(empty, q, 0);
    BalanceOfPair([], HeaderFor(q, 0), 1);
  }

  /** One debit of holder 1 for each key. */
  function Debit(amount: int, key: Key): Request {
    Request(key, TRANSFER, 1, 2, amount, "USD", None)
  }

  lemma AffordableIsAccepted(balance: int, amount: int, key: Key)
    requires 0 < amount <= balance && IsKey(key) && key != "fund-0000"
    ensures Decide(FundedLedger(balance), Debit(amount, key)) == Accept
  {
    FundedLedgerIsSound(balance);
    assert IsCurrencyCode("USD");
  }

  lemma DebitsAllCommit(db: Db, amount: int, keys: seq<Key>) returns (steps: seq<Step>)
    requires Sound(db)
    requires forall i | 0 <= i < |keys| :: Decide(db, Debit(amount, keys[i])) == Accept
    requires forall i, j | 0 <= i < j < |keys| :: keys[i] != keys[j]
    ensures Legal(UNSERIALISED, Start(db), steps)
    ensures var s := Execute(UNSERIALISED, Start(db), steps);
            && Balance(s.db.entries, 1) == Balance(db.entries, 1) - |keys| * amount
            && forall i | 0 <= i < |keys| ::
                 i in s.calls && s.calls[i].phase.Done? && s.calls[i].phase.outcome.Committed?
  {
    var qs := seq(|keys|, i requires 0 <= i < |keys| => Debit(amount, keys[i]));
    TotalOfEqualAmounts(qs, amount);
    steps := WriteSkew(db, qs, 1);
  }

  /** For every balance B, amount a <= B and number N of different keys: a sound ledger and a run without the
      serialisation write in which all N debits commit and the balance ends at B - N * a. */
  lemma OverdraftWithoutSerialisation(balance: int, amount: int, keys: seq<Key>) returns (steps: seq<Step>)
    requires 0 < amount <= balance
    requires forall i | 0 <= i < |keys| :: IsKey(keys[i]) && keys[i] != "fund-0000"
    requires forall i, j | 0 <= i < j < |keys| :: keys[i] != keys[j]
    ensures Sound(FundedLedger(balance)) && Balance(FundedLedger(balance).entries, 1) == balance
    ensures Legal(UNSERIALISED, Start(FundedLedger(balance)), steps)
    ensures var s := Execute(UNSERIALISED, Start(FundedLedger(balance)), steps);
            && Balance(s.db.entries, 1) == balance - |keys| * amount
            && forall i | 0 <= i < |keys| ::
                 i in s.calls && s.calls[i].phase.Done? && s.calls[i].phase.outcome.Committed?
  {
    FundedLedgerIsSound(balance);
    forall i | 0 <= i < |keys|
      ensures Decide(FundedLedger(balance), Debit(amount, keys[i])) == Accept
    {
      AffordableIsAccepted(balance, amount, keys[i]);
    }
    steps := DebitsAllCommit(FundedLedger(balance), amount, keys);
  }
}
