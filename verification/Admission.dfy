// Exact outcomes of concurrent submissions: how many of a set of competing debits succeed, and what
// happens to many submissions of one request.
module Admission {
  import opened Domain
  import opened Specification
  import opened Protocol
  import opened Invariant
  import opened Guarantees
  import opened Contention
  import Progress

  predicate Credits(ev: Event, a: AccountId) {
    ev.Transferred? && ev.q.destination == a
  }

  /** The total that the commits i to j take out of an account. */
  function Debited(log: seq<Event>, i: nat, j: nat, a: AccountId): int
    requires i <= j <= |log|
    decreases j
  {
    if i == j then 0
    else Debited(log, i, j - 1, a) + if Debits(log[j - 1], a) then log[j - 1].q.amount else 0
  }

  /** The calls that committed a debit of the account between versions i and j. */
  function Committers(log: seq<Event>, i: nat, j: nat, a: AccountId): set<CallId>
    requires i <= j <= |log|
    decreases j
  {
    if i == j then {}
    else Committers(log, i, j - 1, a) + if Debits(log[j - 1], a) then {log[j - 1].call} else {}
  }

  /** The total that the commits i to j pay into an account. */
  function Credited(log: seq<Event>, i: nat, j: nat, a: AccountId): int
    requires i <= j <= |log|
    decreases j
  {
    if i == j then 0
    else Credited(log, i, j - 1, a) + if Credits(log[j - 1], a) then log[j - 1].q.amount else 0
  }

  /** A balance moves by exactly what is credited and debited. */
  lemma {:induction false} BalanceMoves(s: State, i: nat, j: nat, a: AccountId)
    requires Chained(s) && i <= j <= |s.log|
    ensures Balance(s.hist[j].entries, a)
         == Balance(s.hist[i].entries, a) + Credited(s.log, i, j, a) - Debited(s.log, i, j, a)
    ensures Credited(s.log, i, j, a) >= 0 && Debited(s.log, i, j, a) >= 0
    decreases j
  {
    if i < j {
      BalanceMoves(s, i, j - 1, a);
      assert FollowsAt(s, j - 1);
      var ev := s.log[j - 1];
      if ev.Transferred? {
        BalanceOfPair(s.hist[j - 1].entries, HeaderFor(ev.q, ev.id), a);
      }
    }
  }

  lemma {:induction false} NoneCredited(log: seq<Event>, i: nat, j: nat, a: AccountId)
    requires i <= j <= |log| && forall k | i <= k < j :: !Credits(log[k], a)
    ensures Credited(log, i, j, a) == 0
    decreases j
  {
    if i < j {
      NoneCredited(log, i, j - 1, a);
    }
  }

  lemma {:induction false} NoneDebited(log: seq<Event>, i: nat, j: nat, a: AccountId)
    requires i <= j <= |log| && forall k | i <= k < j :: !Debits(log[k], a)
    ensures Debited(log, i, j, a) == 0
    decreases j
  {
    if i < j {
      NoneDebited(log, i, j - 1, a);
    }
  }

  lemma {:induction false} CommittersAt(s: State, i: nat, j: nat, a: AccountId, r: CallId)
    requires i <= j <= |s.log|
    ensures r in Committers(s.log, i, j, a) <==>
            exists k :: i <= k < j && Debits(s.log[k], a) && s.log[k].call == r
    decreases j
  {
    if i < j {
      CommittersAt(s, i, j - 1, a, r);
    }
  }

  // ----- Sums over sets of calls -----

  ghost function SumAmounts(calls: map<CallId, Call>, rs: set<CallId>): int
    requires rs <= calls.Keys
  {
    if rs == {} then 0
    else
      var r :| r in rs;
      calls[r].q.amount + SumAmounts(calls, rs - {r})
  }

  lemma {:induction false} SumAmountsTakes(calls: map<CallId, Call>, rs: set<CallId>, r: CallId)
    requires rs <= calls.Keys && r in rs
    ensures SumAmounts(calls, rs) == calls[r].q.amount + SumAmounts(calls, rs - {r})
    decreases |rs|
  {
    var x :| x in rs && SumAmounts(calls, rs) == calls[x].q.amount + SumAmounts(calls, rs - {x});
    if x != r {
      SumAmountsTakes(calls, rs - {x}, r);
      SumAmountsTakes(calls, rs - {r}, x);
      assert rs - {x} - {r} == rs - {r} - {x};
    }
  }

  lemma {:induction false} SumOfEqualAmounts(calls: map<CallId, Call>, rs: set<CallId>, amount: int)
    requires rs <= calls.Keys && forall r | r in rs :: calls[r].q.amount == amount
    ensures SumAmounts(calls, rs) == amount * |rs|
    decreases |rs|
  {
    if rs != {} {
      var r :| r in rs;
      SumAmountsTakes(calls, rs, r);
      SumOfEqualAmounts(calls, rs - {r}, amount);
      assert |rs| == |rs - {r}| + 1;
      assert amount * |rs| == amount * |rs - {r}| + amount;
    }
  }

  /** Each commit in the log is by a call of its own, which succeeded with that request. */
  ghost predicate OneCallPerCommit(s: State) {
    forall k | 0 <= k < |s.log| && s.log[k].Transferred? ::
      var r := s.log[k].call;
      Succeeded(s, r) && s.calls[r].q == s.log[k].q && s.calls[r].point == k
  }

  lemma CommitsHaveCalls(s: State)
    requires Inv(s)
    ensures OneCallPerCommit(s)
  {
    forall k | 0 <= k < |s.log| && s.log[k].Transferred?
      ensures Succeeded(s, s.log[k].call) && s.calls[s.log[k].call].q == s.log[k].q
              && s.calls[s.log[k].call].point == k
    {
      assert CallOk(s, s.log[k].call, s.calls[s.log[k].call]);
    }
  }

  /** What is debited is the sum of the amounts of the calls that committed the debits. */
  lemma {:induction false} DebitedIsSumOfCommitters(s: State, i: nat, j: nat, a: AccountId)
    requires OneCallPerCommit(s) && i <= j <= |s.log|
    ensures Committers(s.log, i, j, a) <= s.calls.Keys
    ensures Debited(s.log, i, j, a) == SumAmounts(s.calls, Committers(s.log, i, j, a))
    decreases j
  {
    if i < j {
      DebitedIsSumOfCommitters(s, i, j - 1, a);
      var ev := s.log[j - 1];
      if Debits(ev, a) {
        var before, after := Committers(s.log, i, j - 1, a), Committers(s.log, i, j, a);
        CommittersAt(s, i, j - 1, a, ev.call);
        assert ev.call !in before;
        SumAmountsTakes(s.calls, after, ev.call);
        assert after - {ev.call} == before;
      } else {
        assert Committers(s.log, i, j, a) == Committers(s.log, i, j - 1, a);
      }
    }
  }

  /** A key that no commit in between used is still unused. */
  lemma {:induction false} KeyStaysUnused(s: State, i: nat, j: nat, key: Key)
    requires Chained(s) && i <= j <= |s.log| && !UsedKey(s.hist[i].headers, key)
    requires forall k | i <= k < j :: s.log[k].Transferred? ==> s.log[k].q.key != key
    ensures !UsedKey(s.hist[j].headers, key)
    decreases j
  {
    if i < j {
      KeyStaysUnused(s, i, j - 1, key);
      assert FollowsAt(s, j - 1);
    }
  }

  // ----- Competing debits -----

  /** In state s, call r has no transaction open and no answer: it waits, or has yet to be submitted. */
  predicate Waiting(s: State, r: CallId) {
    r in s.calls ==> s.calls[r].phase.Idle?
  }

  /** The calls ds, which all wait in s and have been submitted by s', compete for account a: each debits it,
      by a request that is valid in s, with an unused key of its own. */
  ghost predicate Competing(s: State, s': State, ds: set<CallId>, a: AccountId) {
    && IsUser(s.db.accounts, a)
    && (forall r | r in ds :: Waiting(s, r) && r in s'.calls && Competitor(s, s'.calls[r].q, a))
    && (forall r, o | r in ds && o in ds && r != o :: s'.calls[r].q.key != s'.calls[o].q.key)
  }

  ghost predicate Competitor(s: State, q: Request, a: AccountId) {
    && q.source == a && q.destination != a
    && Validate(s.db.accounts, q) == None && WellFormed(q) && !UsedKey(s.db.headers, q.key)
  }

  /** A request that neither moves money into or out of account a nor uses a key of the calls ds. */
  ghost predicate KeepsOut(s: State, q: Request, ds: set<CallId>, a: AccountId) {
    && q.source != a && q.destination != a
    && forall r | r in ds :: r in s.calls ==> s.calls[r].q.key != q.key
  }

  /** No other call commits such a request between s and s'. What was committed before s, and calls that are
      refused, do not matter. */
  ghost predicate NoOtherTraffic(s: State, s': State, ds: set<CallId>, a: AccountId) {
    forall k | |s.log| <= k < |s'.log| && s'.log[k].Transferred? ::
      s'.log[k].call in ds || KeepsOut(s', s'.log[k].q, ds, a)
  }

  ghost predicate AllAnswered(s: State, ds: set<CallId>) {
    forall r | r in ds ::
      r in s.calls && s.calls[r].phase.Done? && s.calls[r].phase.outcome != Refused(WriteConflict)
  }

  /** A run from s to s' in which the calls ds compete for account a alone and are all answered. */
  ghost predicate Contest(s: State, steps: seq<Step>, ds: set<CallId>, a: AccountId) {
    && Inv(s) && Legal(FULL, s, steps)
    && Competing(s, Execute(FULL, s, steps), ds, a)
    && NoOtherTraffic(s, Execute(FULL, s, steps), ds, a)
    && AllAnswered(Execute(FULL, s, steps), ds)
  }

  function Winners(s: State, ds: set<CallId>): set<CallId> {
    set r | r in ds && Succeeded(s, r)
  }

  /** An answer to a call that waits in s is taken from a version no older than s. */
  lemma AnsweredAfter(s: State, steps: seq<Step>, r: CallId)
    requires Inv(s) && Legal(FULL, s, steps) && Waiting(s, r)
    requires r in Execute(FULL, s, steps).calls && Execute(FULL, s, steps).calls[r].phase.Done?
    ensures |s.log| <= Execute(FULL, s, steps).calls[r].point <= |Execute(FULL, s, steps).log|
  {
    RunAdvances(s, steps);
    var s' := Execute(FULL, s, steps);
    assert CallOk(s', r, s'.calls[r]);
    assert r in s.calls ==> Continues(s.calls[r], |s.log|, s'.calls[r], |s'.log|);
  }

  /** What the end of a contest inherits from its start. */
  lemma ContestFrame(s: State, steps: seq<Step>, ds: set<CallId>, a: AccountId)
    requires Contest(s, steps, ds, a)
    ensures var s' := Execute(FULL, s, steps);
            && Inv(s') && s.hist <= s'.hist && s.log <= s'.log && s'.hist[|s.log|] == s.db
            && (forall r | r in ds :: r in s'.calls && |s.log| <= s'.calls[r].point <= |s'.log|)
  {
    RunAdvances(s, steps);
    forall r | r in ds
      ensures var s' := Execute(FULL, s, steps);
              r in s'.calls && |s.log| <= s'.calls[r].point <= |s'.log|
    {
      AnsweredAfter(s, steps, r);
    }
  }

  lemma NoCreditsInContest(s: State, steps: seq<Step>, ds: set<CallId>, a: AccountId)
    requires Contest(s, steps, ds, a)
    ensures var s' := Execute(FULL, s, steps);
            forall k | |s.log| <= k < |s'.log| :: !Credits(s'.log[k], a)
  {
    var s' := Execute(FULL, s, steps);
    ContestFrame(s, steps, ds, a);
    CommitsHaveCalls(s');
    forall k | |s.log| <= k < |s'.log| && s'.log[k].Transferred?
      ensures s'.log[k].q.destination != a
    {
      var o := s'.log[k].call;
      if o in ds {
        assert Competitor(s, s'.calls[o].q, a);
      }
    }
  }

  /** The calls that committed a debit during the contest are exactly its winners. */
  lemma WinnersCommitted(s: State, steps: seq<Step>, ds: set<CallId>, a: AccountId)
    requires Contest(s, steps, ds, a)
    ensures var s' := Execute(FULL, s, steps);
            |s.log| <= |s'.log| && Committers(s'.log, |s.log|, |s'.log|, a) == Winners(s', ds)
  {
    var s' := Execute(FULL, s, steps);
    ContestFrame(s, steps, ds, a);
    CommitsHaveCalls(s');
    forall r
      ensures r in Committers(s'.log, |s.log|, |s'.log|, a) <==> r in Winners(s', ds)
    {
      CommittersAt(s', |s.log|, |s'.log|, a, r);
      if r in Winners(s', ds) {
        WinnerDebits(s, s', ds, a, r);
      }
    }
  }

  lemma WinnerDebits(s: State, s': State, ds: set<CallId>, a: AccountId, r: CallId)
    requires Inv(s') && Competing(s, s', ds, a) && r in Winners(s', ds)
    ensures var k := s'.calls[r].point;
            k < |s'.log| && Debits(s'.log[k], a) && s'.log[k].call == r
  {
    assert CallOk(s', r, s'.calls[r]);
    assert Competitor(s, s'.calls[r].q, a);
  }

  lemma LoserKeyUnused(s: State, steps: seq<Step>, ds: set<CallId>, a: AccountId, r: CallId, p: nat)
    requires Contest(s, steps, ds, a) && r in ds && !Succeeded(Execute(FULL, s, steps), r)
    requires |s.log| <= p <= |Execute(FULL, s, steps).log|
    ensures Inv(Execute(FULL, s, steps)) && r in Execute(FULL, s, steps).calls
    ensures !UsedKey(Execute(FULL, s, steps).hist[p].headers, Execute(FULL, s, steps).calls[r].q.key)
  {
    var s' := Execute(FULL, s, steps);
    ContestFrame(s, steps, ds, a);
    CommitsHaveCalls(s');
    assert Competitor(s, s'.calls[r].q, a);
    forall k | |s.log| <= k < p && s'.log[k].Transferred?
      ensures s'.log[k].q.key != s'.calls[r].q.key
    {
      assert s'.log[k].call != r;
    }
    KeyStaysUnused(s', |s.log|, p, s'.calls[r].q.key);
  }

  /** A competitor that does not win is refused for insufficient funds, and more than what is left at the end
      was asked. */
  lemma LoserIsShort(s: State, steps: seq<Step>, ds: set<CallId>, a: AccountId, r: CallId)
    requires Contest(s, steps, ds, a) && r in ds && !Succeeded(Execute(FULL, s, steps), r)
    ensures var s' := Execute(FULL, s, steps);
            && r in s'.calls && s'.calls[r].phase.Done? && s'.calls[r].phase.outcome.Refused?
            && s'.calls[r].phase.outcome.error.InsufficientFunds?
            && Balance(s'.db.entries, a) < s'.calls[r].q.amount
  {
    var s' := Execute(FULL, s, steps);
    ContestFrame(s, steps, ds, a);
    var c := s'.calls[r];
    assert Competitor(s, c.q, a);
    AnsweredAtPoint(s', r);
    ValidityPersists(s', |s.log|, c.point, c.q);
    LoserKeyUnused(s, steps, ds, a, r, c.point);
    NoCreditsInContest(s, steps, ds, a);
    NoneCredited(s'.log, c.point, |s'.log|, a);
    BalanceMoves(s', c.point, |s'.log|, a);
  }

  /** Competing debits of any sizes: the final balance is the opening balance less what the winners took, it
      is not negative, every loser was refused for insufficient funds, and the final balance is strictly
      below every refused amount. */
  lemma CompetingDebits(s: State, steps: seq<Step>, ds: set<CallId>, a: AccountId)
    requires Contest(s, steps, ds, a)
    ensures var s' := Execute(FULL, s, steps);
            && Winners(s', ds) <= s'.calls.Keys
            && Balance(s'.db.entries, a) == Balance(s.db.entries, a) - SumAmounts(s'.calls, Winners(s', ds))
            && Balance(s'.db.entries, a) >= 0
            && forall r | r in ds && r !in Winners(s', ds) ::
                 && r in s'.calls && s'.calls[r].phase.Done? && s'.calls[r].phase.outcome.Refused?
                 && s'.calls[r].phase.outcome.error.InsufficientFunds?
                 && Balance(s'.db.entries, a) < s'.calls[r].q.amount
  {
    var s' := Execute(FULL, s, steps);
    ContestFrame(s, steps, ds, a);
    NoCreditsInContest(s, steps, ds, a);
    NoneCredited(s'.log, |s.log|, |s'.log|, a);
    BalanceMoves(s', |s.log|, |s'.log|, a);
    WinnersCommitted(s, steps, ds, a);
    CommitsHaveCalls(s');
    DebitedIsSumOfCommitters(s', |s.log|, |s'.log|, a);
    forall r | r in ds && r !in Winners(s', ds)
      ensures && r in s'.calls && s'.calls[r].phase.Done? && s'.calls[r].phase.outcome.Refused?
              && s'.calls[r].phase.outcome.error.InsufficientFunds?
              && Balance(s'.db.entries, a) < s'.calls[r].q.amount
    {
      LoserIsShort(s, steps, ds, a, r);
    }
    UserBalanceNotNegative(s, steps, a);
  }

  lemma UserBalanceNotNegative(s: State, steps: seq<Step>, a: AccountId)
    requires Inv(s) && Legal(FULL, s, steps) && IsUser(s.db.accounts, a)
    ensures Balance(Execute(FULL, s, steps).db.entries, a) >= 0
  {
    RunAdvances(s, steps);
    UserStaysUser(s, steps, a);
    VersionIsSound(Execute(FULL, s, steps), |Execute(FULL, s, steps).log|);
  }

  function Min(x: int, y: int): int {
    if x < y then x else y
  }

  lemma SmallMultiple(amount: int, d: int)
    requires amount > 0 && amount * d < amount
    ensures d <= 0
  {
    assert d > 0 ==> amount * (d - 1) >= 0;
    assert amount * d == amount * (d - 1) + amount;
  }

  lemma DivisionBound(balance: int, amount: int, k: int)
    requires amount > 0 && amount * k <= balance
    ensures k <= balance / amount
  {
    var q := balance / amount;
    assert balance == amount * q + balance % amount;
    assert amount * (k - q) == amount * k - amount * q;
    SmallMultiple(amount, k - q);
  }

  lemma FloorOfQuotient(balance: int, amount: int, k: int)
    requires amount > 0 && 0 <= balance - amount * k < amount
    ensures k == balance / amount
  {
    DivisionBound(balance, amount, k);
    var q := balance / amount;
    assert balance == amount * q + balance % amount;
    assert amount * (q - k) == amount * q - amount * k;
    SmallMultiple(amount, q - k);
  }

  /** Exact admission: N competing debits of one amount against balance B end in exactly min(N, B div amount)
      successes and the balance B - amount * min(N, B div amount). */
  lemma {:induction false} ExactAdmission(s: State, steps: seq<Step>, ds: set<CallId>, a: AccountId, amount: int)
    requires Contest(s, steps, ds, a) && amount > 0
    requires forall r | r in ds :: r in Execute(FULL, s, steps).calls
                                   && Execute(FULL, s, steps).calls[r].q.amount == amount
    ensures var s' := Execute(FULL, s, steps);
            var admitted := Min(|ds|, Balance(s.db.entries, a) / amount);
            && |Winners(s', ds)| == admitted
            && Balance(s'.db.entries, a) == Balance(s.db.entries, a) - amount * admitted
  {
    var s' := Execute(FULL, s, steps);
    var opening, closing, ws := Balance(s.db.entries, a), Balance(s'.db.entries, a), Winners(s', ds);
    CompetingDebits(s, steps, ds, a);
    ContestFrame(s, steps, ds, a);
    SumOfEqualAmounts(s'.calls, ws, amount);
    assert closing == opening - amount * |ws|;
    SubsetSize(ws, ds);
    if ws == ds {
      DivisionBound(opening, amount, |ds|);
    } else {
      var r :| r in ds && r !in ws;
      FloorOfQuotient(opening, amount, |ws|);
    }
  }

  /** What is committed after s was not answered in s. */
  lemma CommittedLater(s: State, steps: seq<Step>, k: nat)
    requires Inv(s) && Legal(FULL, s, steps)
    requires |s.log| <= k < |Execute(FULL, s, steps).log| && Execute(FULL, s, steps).log[k].Transferred?
    ensures var s' := Execute(FULL, s, steps);
            var o := s'.log[k].call;
            o in s'.calls && s'.calls[o].q == s'.log[k].q && (o in s.calls ==> Pending(s, o))
  {
    var s' := Execute(FULL, s, steps);
    RunAdvances(s, steps);
    CommitsHaveCalls(s');
    var o := s'.log[k].call;
    if o in s.calls {
      assert CallOk(s, o, s.calls[o]);
      assert Continues(s.calls[o], |s.log|, s'.calls[o], |s'.log|);
    }
  }

  /** It is enough that the calls which were still unanswered in s, or submitted later, keep out. */
  lemma KeepingOutIsNoTraffic(s: State, steps: seq<Step>, ds: set<CallId>, a: AccountId)
    requires Inv(s) && Legal(FULL, s, steps)
    requires var s' := Execute(FULL, s, steps);
             forall o | o in s'.calls && o !in ds && (o in s.calls ==> Pending(s, o)) ::
               KeepsOut(s', s'.calls[o].q, ds, a)
    ensures NoOtherTraffic(s, Execute(FULL, s, steps), ds, a)
  {
    var s' := Execute(FULL, s, steps);
    forall k | |s.log| <= k < |s'.log| && s'.log[k].Transferred?
      ensures s'.log[k].call in ds || KeepsOut(s', s'.log[k].q, ds, a)
    {
      CommittedLater(s, steps, k);
    }
  }

  /** Answering all waiting calls leaves their requests as they are. */
  lemma FinishRequests(s: State) returns (steps: seq<Step>)
    requires Inv(s)
    ensures Legal(FULL, s, steps) && Progress.Finishes(s, Execute(FULL, s, steps))
    ensures forall r | r in s.calls :: Execute(FULL, s, steps).calls[r].q == s.calls[r].q
  {
    steps := Progress.EveryoneCanFinish(s);
    RunAdvances(s, steps);
    var s' := Execute(FULL, s, steps);
    forall r | r in s.calls
      ensures s'.calls[r].q == s.calls[r].q
    {
      assert Continues(s.calls[r], |s.log|, s'.calls[r], |s'.log|);
    }
  }

  lemma WaitingAreAnswered(s: State, s': State, ds: set<CallId>)
    requires Progress.Finishes(s, s') && forall r | r in ds :: r in s.calls && Waiting(s, r)
    ensures AllAnswered(s', ds)
  {
    forall r | r in ds
      ensures r in s'.calls && s'.calls[r].phase.Done? && s'.calls[r].phase.outcome != Refused(WriteConflict)
    {
      assert Pending(s, r);
      assert Progress.HasAnswer(s', r);
    }
  }

  /** Contests happen: whenever submitted calls compete for an account and the other unanswered calls keep out,
      a schedule exists that brings all of them to an answer other than WRITE_CONFLICT. */
  lemma ContestCanBeHeld(s: State, ds: set<CallId>, a: AccountId) returns (steps: seq<Step>)
    requires Inv(s) && Competing(s, s, ds, a)
    requires forall o | Pending(s, o) && o !in ds :: KeepsOut(s, s.calls[o].q, ds, a)
    ensures Contest(s, steps, ds, a)
  {
    steps := FinishRequests(s);
    var s' := Execute(FULL, s, steps);
    WaitingAreAnswered(s, s', ds);
    forall o | o in s'.calls && o !in ds && (o in s.calls ==> Pending(s, o))
      ensures KeepsOut(s', s'.calls[o].q, ds, a)
    {
      assert KeepsOut(s, s.calls[o].q, ds, a);
    }
    KeepingOutIsNoTraffic(s, steps, ds, a);
    assert Competing(s, s', ds, a) by {
      assert forall r | r in ds :: Competitor(s, s.calls[r].q, a);
    }
  }

  // ----- Many submissions of one request -----

  /** The calls ds, which all wait in s and have been submitted by s', submit the request q, which the ledger
      would accept in s. */
  ghost predicate Resubmitting(s: State, s': State, ds: set<CallId>, q: Request) {
    && ds != {} && Decide(s.db, q) == Accept
    && forall r | r in ds :: Waiting(s, r) && r in s'.calls && s'.calls[r].q == q
  }

  /** A request that neither uses the key of q nor debits its source, if that is a USER account. */
  predicate LeavesAlone(s: State, p: Request, q: Request) {
    p.key != q.key && (IsUser(s.db.accounts, q.source) ==> p.source != q.source)
  }

  /** No other call commits such a request between s and s'. */
  ghost predicate NoOtherDebit(s: State, s': State, ds: set<CallId>, q: Request) {
    forall k | |s.log| <= k < |s'.log| && s'.log[k].Transferred? ::
      s'.log[k].call in ds || LeavesAlone(s, s'.log[k].q, q)
  }

  ghost predicate Replayed(s: State, steps: seq<Step>, ds: set<CallId>, q: Request) {
    && Inv(s) && Legal(FULL, s, steps)
    && Resubmitting(s, Execute(FULL, s, steps), ds, q)
    && NoOtherDebit(s, Execute(FULL, s, steps), ds, q)
    && AllAnswered(Execute(FULL, s, steps), ds)
  }

  lemma ResubmissionFrame(s: State, steps: seq<Step>, ds: set<CallId>, q: Request, r: CallId)
    requires Replayed(s, steps, ds, q) && r in ds
    ensures var s' := Execute(FULL, s, steps);
            && Inv(s') && s.log <= s'.log && s'.hist[|s.log|] == s.db
            && r in s'.calls && s'.calls[r].q == q && |s.log| <= s'.calls[r].point <= |s'.log|
  {
    RunAdvances(s, steps);
    AnsweredAfter(s, steps, r);
  }

  /** The key of a commit is used in every later version. */
  lemma CommittedKeyIsUsed(s: State, k: nat, p: nat)
    requires Chained(s) && k < p <= |s.log| && s.log[k].Transferred?
    ensures UsedKey(s.hist[p].headers, s.log[k].q.key)
  {
    assert FollowsAt(s, k);
    var n := |s.hist[k].headers|;
    assert s.hist[k + 1].headers[n].key == s.log[k].q.key;
    LedgerGrows(s, k + 1, p);
    assert s.hist[p].headers[n].key == s.log[k].q.key;
  }

  /** While the key is unused, nothing has debited the source, if it is a USER account. */
  lemma NoDebitBeforeKey(s: State, steps: seq<Step>, ds: set<CallId>, q: Request, p: nat)
    requires Replayed(s, steps, ds, q) && IsUser(s.db.accounts, q.source)
    requires |s.log| <= p <= |Execute(FULL, s, steps).log|
    requires Inv(Execute(FULL, s, steps)) && !UsedKey(Execute(FULL, s, steps).hist[p].headers, q.key)
    ensures forall k | |s.log| <= k < p :: !Debits(Execute(FULL, s, steps).log[k], q.source)
  {
    var s' := Execute(FULL, s, steps);
    CommitsHaveCalls(s');
    forall k | |s.log| <= k < p && s'.log[k].Transferred?
      ensures s'.log[k].q.source != q.source
    {
      CommittedKeyIsUsed(s', k, p);
    }
  }

  /** While the key is unused, the request is still acceptable. */
  lemma StillAcceptable(s: State, steps: seq<Step>, ds: set<CallId>, q: Request, p: nat)
    requires Replayed(s, steps, ds, q)
    requires |s.log| <= p <= |Execute(FULL, s, steps).log|
    requires Inv(Execute(FULL, s, steps)) && Execute(FULL, s, steps).hist[|s.log|] == s.db
    requires !UsedKey(Execute(FULL, s, steps).hist[p].headers, q.key)
    ensures Decide(Execute(FULL, s, steps).hist[p], q) == Accept
  {
    var s' := Execute(FULL, s, steps);
    ValidityPersists(s', |s.log|, p, q);
    if IsUser(s.db.accounts, q.source) {
      NoDebitBeforeKey(s, steps, ds, q, p);
      BalanceHoldsUp(s', |s.log|, p, q.source);
    }
  }

  /** A submission that does not succeed answers DUPLICATE_SUBMISSION from a version that has the key. */
  lemma LoserIsDuplicate(s: State, steps: seq<Step>, ds: set<CallId>, q: Request, r: CallId)
    requires Replayed(s, steps, ds, q) && r in ds && !Succeeded(Execute(FULL, s, steps), r)
    ensures var s' := Execute(FULL, s, steps);
            && r in s'.calls && s'.calls[r].phase == Done(Refused(DuplicateSubmission))
            && s'.calls[r].point < |s'.hist| && UsedKey(s'.hist[s'.calls[r].point].headers, q.key)
  {
    var s' := Execute(FULL, s, steps);
    ResubmissionFrame(s, steps, ds, q, r);
    AnsweredAtPoint(s', r);
    var p := s'.calls[r].point;
    if !UsedKey(s'.hist[p].headers, q.key) {
      StillAcceptable(s, steps, ds, q, p);
    }
  }

  /** A key that is new since s was committed by one of the submissions. */
  lemma KeyCommittedByOne(s: State, steps: seq<Step>, ds: set<CallId>, q: Request, p: nat) returns (w: CallId)
    requires Replayed(s, steps, ds, q) && |s.log| <= p < |Execute(FULL, s, steps).hist|
    requires Inv(Execute(FULL, s, steps)) && Execute(FULL, s, steps).hist[|s.log|] == s.db
    requires UsedKey(Execute(FULL, s, steps).hist[p].headers, q.key)
    ensures w in ds && Succeeded(Execute(FULL, s, steps), w)
  {
    var s' := Execute(FULL, s, steps);
    var n :| 0 <= n < |s'.hist[p].headers| && s'.hist[p].headers[n].key == q.key;
    LedgerGrows(s', |s.log|, p);
    var k := HeaderOrigin(s', |s.log|, p, n);
    w := s'.log[k].call;
    CommitsHaveCalls(s');
  }

  lemma SomeoneWins(s: State, steps: seq<Step>, ds: set<CallId>, q: Request) returns (w: CallId)
    requires Replayed(s, steps, ds, q)
    ensures w in ds && Succeeded(Execute(FULL, s, steps), w)
  {
    w :| w in ds;
    if !Succeeded(Execute(FULL, s, steps), w) {
      ResubmissionFrame(s, steps, ds, q, w);
      LoserIsDuplicate(s, steps, ds, q, w);
      w := KeyCommittedByOne(s, steps, ds, q, Execute(FULL, s, steps).calls[w].point);
    }
  }

  /** N submissions of one acceptable request, with no other commit that uses its key or debits its source (if
      that is a USER account), end in exactly one success and N - 1 answers DUPLICATE_SUBMISSION; in particular
      none is refused for insufficient funds because of the original's own debit. */
  lemma AppliedExactlyOnce(s: State, steps: seq<Step>, ds: set<CallId>, q: Request)
    requires Replayed(s, steps, ds, q)
    ensures var s' := Execute(FULL, s, steps);
            |Winners(s', ds)| == 1
            && forall r | r in ds && r !in Winners(s', ds) ::
                 r in s'.calls && s'.calls[r].phase == Done(Refused(DuplicateSubmission))
  {
    var s' := Execute(FULL, s, steps);
    var w := SomeoneWins(s, steps, ds, q);
    ResubmissionFrame(s, steps, ds, q, w);
    VersionIsSound(s', |s'.log|);
    forall r | r in ds && Succeeded(s', r)
      ensures r == w
    {
      ResubmissionFrame(s, steps, ds, q, r);
      OneCommitPerKey(s', r, w);
    }
    assert Winners(s', ds) == {w};
    forall r | r in ds && r !in Winners(s', ds)
      ensures r in s'.calls && s'.calls[r].phase == Done(Refused(DuplicateSubmission))
    {
      LoserIsDuplicate(s, steps, ds, q, r);
    }
  }

  /** It is enough that the calls which were still unanswered in s, or submitted later, leave the request alone. */
  lemma LeavingAloneIsNoDebit(s: State, steps: seq<Step>, ds: set<CallId>, q: Request)
    requires Inv(s) && Legal(FULL, s, steps)
    requires var s' := Execute(FULL, s, steps);
             forall o | o in s'.calls && o !in ds && (o in s.calls ==> Pending(s, o)) ::
               LeavesAlone(s, s'.calls[o].q, q)
    ensures NoOtherDebit(s, Execute(FULL, s, steps), ds, q)
  {
    var s' := Execute(FULL, s, steps);
    forall k | |s.log| <= k < |s'.log| && s'.log[k].Transferred?
      ensures s'.log[k].call in ds || LeavesAlone(s, s'.log[k].q, q)
    {
      CommittedLater(s, steps, k);
    }
  }

  /** Resubmissions happen: whenever submitted calls wait with one acceptable request and the other unanswered
      calls leave it alone, a schedule exists that brings all of them to an answer other than WRITE_CONFLICT. */
  lemma ReplayCanBeHeld(s: State, ds: set<CallId>, q: Request) returns (steps: seq<Step>)
    requires Inv(s) && Resubmitting(s, s, ds, q)
    requires forall o | Pending(s, o) && o !in ds :: LeavesAlone(s, s.calls[o].q, q)
    ensures Replayed(s, steps, ds, q)
  {
    steps := FinishRequests(s);
    var s' := Execute(FULL, s, steps);
    WaitingAreAnswered(s, s', ds);
    assert forall o | o in s'.calls && (o in s.calls ==> Pending(s, o)) :: Pending(s, o);
    LeavingAloneIsNoDebit(s, steps, ds, q);
  }
}
