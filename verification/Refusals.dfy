// An in-flight debit does not see credits that commit after its snapshot: it may be refused although it is
// covered by then, and never the other way round.
module Refusals {
  import opened Domain
  import opened Specification
  import opened Protocol
  import opened Invariant
  import opened Guarantees
  import opened Admission
  import Progress

  /** While a call holds its source, the balance has grown since the snapshot by what was credited. */
  lemma BalanceSinceSnapshot(s: State, r: CallId)
    requires Inv(s) && r in s.calls && HoldsSource(s.calls[r])
    ensures s.calls[r].snap <= |s.log|
    ensures var c := s.calls[r];
            var credited := Credited(s.log, c.snap, |s.log|, c.q.source);
            credited >= 0 && Balance(s.db.entries, c.q.source) == Balance(c.view.entries, c.q.source) + credited
  {
    var c := s.calls[r];
    assert CallOk(s, r, c);
    SourceIsStable(s, r);
    NoneDebited(s.log, c.snap, |s.log|, c.q.source);
    BalanceMoves(s, c.snap, |s.log|, c.q.source);
  }

  lemma CheckingHoldsSource(s: State, r: CallId)
    requires Inv(s) && r in s.calls && s.calls[r].phase.CheckBalance?
    ensures HoldsSource(s.calls[r]) && s.calls[r].staged.entries == []
  {
    assert CallOk(s, r, s.calls[r]);
  }

  /** A debit that passes the balance check is still covered when it is checked, whatever has committed since its
      snapshot. One that is refused may be covered by then: exactly if what was credited since the snapshot makes
      up the shortfall. */
  lemma RefusalIsConservative(s: State, r: CallId)
    requires Inv(s) && r in s.calls && s.calls[r].phase.CheckBalance?
    ensures s.calls[r].snap <= |s.log|
    ensures var c := s.calls[r];
            var shortfall := c.q.amount - Balance(c.view.entries, c.q.source);
            var refused := SumBalance(s, r).calls[r].phase.Done?;
            var covered := Balance(s.db.entries, c.q.source) >= c.q.amount;
            && (refused <==> shortfall > 0)
            && (!refused ==> covered)
            && (refused && covered <==> 0 < shortfall <= Credited(s.log, c.snap, |s.log|, c.q.source))
  {
    CheckingHoldsSource(s, r);
    BalanceSinceSnapshot(s, r);
    SumBalanceReadsSnapshot(s, r);
  }

  // ----- Such refusals happen -----

  lemma OneMoreStep(db: Db, steps: seq<Step>, step: Step)
    requires Run(db, steps) && Enabled(Final(db, steps), step)
    ensures Run(db, steps + [step])
    ensures Final(db, steps + [step]) == Apply(FULL, Final(db, steps), step)
  {
    assert [step][1..] == [];
    ExecuteAppend(FULL, Start(db), steps, [step]);
  }

  /** Nothing has been committed, call 1 waits with request p, and call 0 with request q has taken the first i
      steps of its transaction, the fourth of which takes its source. */
  ghost predicate Approaching(s: State, db: Db, q: Request, p: Request, i: nat) {
    && s.db == db && s.log == [] && s.calls.Keys == {0, 1} && s.stamps == Start(db).stamps
    && s.calls[0].q == q && Rank(s.calls[0].phase) == i
    && s.calls[0].staged.headers == [] && s.calls[0].staged.entries == []
    && s.calls[0].staged.accounts.Keys == (if i < 4 then {} else {q.source})
    && (i > 0 ==> s.calls[0].view == db && s.calls[0].snap == 0)
    && s.calls[1].q == p && s.calls[1].phase.Idle? && s.calls[1].staged == NOTHING
  }

  lemma Approach(s: State, db: Db, q: Request, p: Request, i: nat)
    requires Approaching(s, db, q, p, i) && i < 4
    requires !UsedKey(db.headers, q.key) && Validate(db.accounts, q) == None && IsUser(db.accounts, q.source)
    ensures Approaching(Perform(FULL, s, 0, GO), db, q, p, i + 1)
  {
    var c := s.calls[0];
    if i > 0 {
      assert Seen(c).headers == db.headers;
      assert c.staged.accounts == map[] && Seen(c).accounts == db.accounts;
    }
    match c.phase {
      case Idle =>
      case CheckKey =>
      case LoadAccounts =>
      case LockSource =>
    }
  }

  lemma {:induction false} ReachApproach(db: Db, q: Request, p: Request, i: nat) returns (steps: seq<Step>)
    requires Sound(db) && q.source != q.destination && p.source != p.destination && i <= 4
    requires !UsedKey(db.headers, q.key) && Validate(db.accounts, q) == None && IsUser(db.accounts, q.source)
    ensures Run(db, steps) && Approaching(Final(db, steps), db, q, p, i)
  {
    if i == 0 {
      OneMoreStep(db, [], Submit(0, q));
      steps := [] + [Submit(0, q)];
      OneMoreStep(db, steps, Submit(1, p));
      steps := steps + [Submit(1, p)];
    } else {
      steps := ReachApproach(db, q, p, i - 1);
      Approach(Final(db, steps), db, q, p, i - 1);
      OneMoreStep(db, steps, Act(0, GO));
      steps := steps + [Act(0, GO)];
    }
  }

  /** In s, call 1 has run alone after Approaching(.., 4). */
  ghost predicate RanBeside(s: State, db: Db, q: Request, p: Request) {
    && Inv(s) && s.hist[0] == db && s.calls.Keys == {0, 1}
    && s.calls[0].q == q && s.calls[0].phase.CheckBalance? && s.calls[0].view == db && s.calls[0].snap == 0
    && s.calls[1].q == p && Progress.HasAnswer(s, 1)
  }

  /** No commit but that of call 1 debits anything or uses a key. */
  lemma OnlyOneCommits(s: State, db: Db, q: Request, p: Request, k: nat)
    requires RanBeside(s, db, q, p) && k < |s.log| && s.log[k].Transferred?
    ensures Succeeded(s, 1) && s.calls[1].point == k && s.log[k].q == p
  {
    CommitsHaveCalls(s);
  }

  lemma CreditSucceeds(s: State, db: Db, q: Request, p: Request)
    requires RanBeside(s, db, q, p) && Decide(db, p) == Accept
    ensures Succeeded(s, 1)
  {
    if !Succeeded(s, 1) {
      forall k | 0 <= k < |s.log|
        ensures !s.log[k].Transferred?
      {
        if s.log[k].Transferred? {
          OnlyOneCommits(s, db, q, p, k);
        }
      }
      AnsweredAtPoint(s, 1);
      var n := s.calls[1].point;
      ValidityPersists(s, 0, n, p);
      KeyStaysUnused(s, 0, n, p.key);
      BalanceHoldsUp(s, 0, n, p.source);
    }
  }

  lemma {:induction false} CreditedAtLeast(log: seq<Event>, i: nat, j: nat, k: nat, a: AccountId)
    requires i <= k < j <= |log| && Credits(log[k], a)
    requires forall n | i <= n < j && Credits(log[n], a) :: log[n].q.amount >= 0
    ensures Credited(log, i, j, a) >= log[k].q.amount
    decreases j
  {
    if k < j - 1 {
      CreditedAtLeast(log, i, j - 1, k, a);
    } else {
      CreditedNotNegative(log, i, k, a);
    }
  }

  lemma {:induction false} CreditedNotNegative(log: seq<Event>, i: nat, j: nat, a: AccountId)
    requires i <= j <= |log| && forall n | i <= n < j && Credits(log[n], a) :: log[n].q.amount >= 0
    ensures Credited(log, i, j, a) >= 0
    decreases j
  {
    if i < j {
      CreditedNotNegative(log, i, j - 1, a);
    }
  }

  lemma CreditCovers(s: State, db: Db, q: Request, p: Request)
    requires RanBeside(s, db, q, p) && Decide(db, p) == Accept && p.destination == q.source
    ensures Succeeded(s, 1) && Credited(s.log, 0, |s.log|, q.source) >= p.amount
  {
    CreditSucceeds(s, db, q, p);
    AnsweredAtPoint(s, 1);
    var k := s.calls[1].point;
    OnlyOneCommits(s, db, q, p, k);
    forall n | 0 <= n < |s.log| && Credits(s.log[n], q.source)
      ensures s.log[n].q.amount >= 0
    {
      OnlyOneCommits(s, db, q, p, n);
    }
    CreditedAtLeast(s.log, 0, |s.log|, k, q.source);
  }

  lemma RunBeside(s: State, db: Db, q: Request, p: Request) returns (more: seq<Step>)
    requires Inv(s) && s.hist[0] == db && Approaching(s, db, q, p, 4) && p.source != q.source
    ensures Legal(FULL, s, more) && RanBeside(Execute(FULL, s, more), db, q, p)
  {
    assert Progress.Unobstructed(s, 1) by {
      assert Progress.NotHolding(s, s.calls[0], p) by {
        assert p.source !in s.calls[0].staged.accounts.Keys;
      }
    }
    more := Progress.RunAlone(s, 1);
    RunAdvances(s, more);
    var s' := Execute(FULL, s, more);
    assert Continues(s.calls[1], |s.log|, s'.calls[1], |s'.log|);
  }

  /** The debit is refused for insufficient funds although the balance covers it. */
  ghost predicate RefusedButCovered(s: State, q: Request, p: Request, error: Error) {
    && 0 in s.calls && s.calls[0].q == q && s.calls[0].phase == Done(Refused(error))
    && 1 in s.calls && s.calls[1].q == p && Succeeded(s, 1) && s.calls[1].point < s.calls[0].ended
    && Balance(s.db.entries, q.source) >= q.amount
  }

  /** The check refuses with what the specification answers at the snapshot. */
  lemma RefusedFromSnapshot(s: State, r: CallId, error: Error)
    requires r in s.calls && s.calls[r].staged.entries == []
    requires Decide(s.calls[r].view, s.calls[r].q) == Reject(error) && error.InsufficientFunds?
    ensures SumBalance(s, r) == Refuse(s, r, error, s.calls[r].snap)
    ensures Balance(s.calls[r].view.entries, s.calls[r].q.source) == s.calls[r].q.amount - error.shortfall
  {
    SumBalanceReadsSnapshot(s, r);
  }

  lemma CoveredByCredit(s: State, db: Db, q: Request, p: Request)
    requires RanBeside(s, db, q, p) && Decide(db, p) == Accept && p.destination == q.source
    ensures Succeeded(s, 1) && s.calls[1].point < |s.log|
    ensures Balance(s.db.entries, q.source) >= Balance(db.entries, q.source) + p.amount
  {
    CreditCovers(s, db, q, p);
    CheckingHoldsSource(s, 0);
    BalanceSinceSnapshot(s, 0);
    AnsweredAtPoint(s, 1);
  }

  lemma RefusedAfterCredit(s: State, db: Db, q: Request, p: Request, error: Error)
    requires RanBeside(s, db, q, p) && Decide(db, q) == Reject(error) && error.InsufficientFunds?
    requires Decide(db, p) == Accept && p.destination == q.source && p.amount >= error.shortfall
    ensures RefusedButCovered(SumBalance(s, 0), q, p, error)
  {
    CoveredByCredit(s, db, q, p);
    CheckingHoldsSource(s, 0);
    RefusedFromSnapshot(s, 0, error);
  }

  /** From every sound ledger: if a debit falls short and a credit to its source would make up the shortfall, a run
      exists in which the credit is committed before the debit is checked, and the debit is refused for
      insufficient funds although the balance covers it. */
  lemma RefusedThoughCovered(db: Db, q: Request, p: Request, error: Error) returns (steps: seq<Step>)
    requires Sound(db) && Decide(db, q) == Reject(error) && error.InsufficientFunds?
    requires Decide(db, p) == Accept && p.destination == q.source && p.amount >= error.shortfall
    ensures Run(db, steps) && RefusedButCovered(Final(db, steps), q, p, error)
  {
    var first := ReachApproach(db, q, p, 4);
    ReachableInv(db, first);
    var more := RunBeside(Final(db, first), db, q, p);
    ExecuteAppend(FULL, Start(db), first, more);
    RefusedAfterCredit(Final(db, first + more), db, q, p, error);
    OneMoreStep(db, first + more, Act(0, GO));
    steps := first + more + [Act(0, GO)];
  }
}
