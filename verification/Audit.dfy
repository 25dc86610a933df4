// Reconciliation of a ledger that the protocol produced, on one snapshot and with independent reads.
module Audit {
  import opened Domain
  import opened Specification
  import opened Protocol
  import opened Invariant
  import opened Guarantees
  import opened Aggregation
  import opened Reconciliation
  import opened Necessity

  lemma MatchOfPair(entries: seq<Entry>, h: Header, field: Field, tag: Tag)
    ensures Match(entries + [DebitFor(h), CreditFor(h)], field, tag)
         == Match(entries, field, tag) + (if TagOf(DebitFor(h), field) == tag then [DebitFor(h)] else [])
            + (if TagOf(CreditFor(h), field) == tag then [CreditFor(h)] else [])
  {
    MatchAppend(entries, DebitFor(h), field, tag);
    MatchAppend(entries + [DebitFor(h)], CreditFor(h), field, tag);
    assert entries + [DebitFor(h), CreditFor(h)] == entries + [DebitFor(h)] + [CreditFor(h)];
    assert Match(entries, field, tag) + [] + [] == Match(entries, field, tag);
  }

  lemma {:induction false} UnusedIdMatchesNothing(headers: seq<Header>, id: TransactionId)
    requires !UsedId(headers, id)
    ensures Match(Pairs(headers), TRANSACTION_ID, OfTransaction(id)) == []
  {
    if headers != [] {
      var n := |headers| - 1;
      assert forall i | 0 <= i < n :: headers[..n][i] == headers[i];
      UnusedIdMatchesNothing(headers[..n], id);
      MatchOfPair(Pairs(headers[..n]), headers[n], TRANSACTION_ID, OfTransaction(id));
      assert headers[n].id != id;
    }
  }

  lemma {:induction false} UsedIdMatchesItsPair(headers: seq<Header>, i: nat)
    requires DistinctIds(headers) && i < |headers|
    ensures Match(Pairs(headers), TRANSACTION_ID, OfTransaction(headers[i].id))
         == [DebitFor(headers[i]), CreditFor(headers[i])]
  {
    var n := |headers| - 1;
    MatchOfPair(Pairs(headers[..n]), headers[n], TRANSACTION_ID, OfTransaction(headers[i].id));
    if i == n {
      assert !UsedId(headers[..n], headers[n].id);
      UnusedIdMatchesNothing(headers[..n], headers[n].id);
    } else {
      UsedIdMatchesItsPair(headers[..n], i);
      assert headers[i].id != headers[n].id;
    }
  }

  lemma {:induction false} PairsBalancePerCurrency(headers: seq<Header>, c: Currency)
    ensures SumIn(Pairs(headers), c) == 0
  {
    if headers != [] {
      var n := |headers| - 1;
      var before, debit, credit := Pairs(headers[..n]), DebitFor(headers[n]), CreditFor(headers[n]);
      PairsBalancePerCurrency(headers[..n], c);
      SumInAppend(before, debit, c);
      SumInAppend(before + [debit], credit, c);
      assert before + [debit] + [credit] == before + [debit, credit];
    }
  }

  lemma {:induction false} PairsComeFromHeaders(headers: seq<Header>, e: Entry) returns (i: nat)
    requires e in Pairs(headers)
    ensures i < |headers| && (e == DebitFor(headers[i]) || e == CreditFor(headers[i]))
  {
    var n := |headers| - 1;
    if e == DebitFor(headers[n]) || e == CreditFor(headers[n]) {
      i := n;
    } else {
      i := PairsComeFromHeaders(headers[..n], e);
    }
  }

  /** A sound ledger passes every check, and has exactly two entries per transaction. */
  lemma SoundLedgerIsHealthy(db: Db)
    requires Sound(db)
    ensures AllAdmitted(db.entries)
    ensures Reconcile(db).healthy && Reconcile(db).net == 0
    ensures Reconcile(db).totalEntries == 2 * Reconcile(db).totalTransactions
  {
    forall e | e in db.entries
      ensures EntryAdmitted(e) && UsedId(db.headers, e.transaction)
      ensures CleanPair(Match(db.entries, TRANSACTION_ID, OfTransaction(e.transaction)))
    {
      var i := PairsComeFromHeaders(db.headers, e);
      assert Fits(db.accounts, db.headers[i]);
      UsedIdMatchesItsPair(db.headers, i);
    }
    forall c: Currency
      ensures SumIn(db.entries, c) == 0
    {
      PairsBalancePerCurrency(db.headers, c);
    }
    HealthyIffSound(db);
    TotalCounts(db.entries);
    PairsLength(db.headers);
  }

  // ----- Gross flows -----

  /** The total of the headers out of an account, and into it. */
  function PaidOut(headers: seq<Header>, a: AccountId): int {
    if headers == [] then 0
    else
      PaidOut(headers[..|headers| - 1], a)
      + if headers[|headers| - 1].source == a then headers[|headers| - 1].amount else 0
  }

  function PaidIn(headers: seq<Header>, a: AccountId): int {
    if headers == [] then 0
    else
      PaidIn(headers[..|headers| - 1], a)
      + if headers[|headers| - 1].destination == a then headers[|headers| - 1].amount else 0
  }

  lemma MovedByPair(entries: seq<Entry>, h: Header, a: AccountId, direction: Direction)
    ensures Moved(entries + [DebitFor(h), CreditFor(h)], a, direction)
         == Moved(entries, a, direction) + (if direction == DEBIT && h.source == a then h.amount else 0)
            + (if direction == CREDIT && h.destination == a then h.amount else 0)
  {
    assert (entries + [DebitFor(h), CreditFor(h)])[..|entries| + 1] == entries + [DebitFor(h)];
    assert (entries + [DebitFor(h)])[..|entries|] == entries;
  }

  lemma {:induction false} PairsMove(headers: seq<Header>, a: AccountId)
    ensures Moved(Pairs(headers), a, DEBIT) == PaidOut(headers, a)
    ensures Moved(Pairs(headers), a, CREDIT) == PaidIn(headers, a)
  {
    if headers != [] {
      var n := |headers| - 1;
      PairsMove(headers[..n], a);
      MovedByPair(Pairs(headers[..n]), headers[n], a, DEBIT);
      MovedByPair(Pairs(headers[..n]), headers[n], a, CREDIT);
    }
  }

  /** In every version of every run, compute_balance reports what the committed transactions paid into the account
      and out of it, and their difference. */
  lemma BalanceTellsTransactions(db: Db, steps: seq<Step>, v: nat, a: AccountId)
    requires Run(db, steps) && v < |Final(db, steps).hist|
    ensures var ledger := Final(db, steps).hist[v];
            var b := ComputeBalance(ledger.entries, a);
            && b.credited == PaidIn(ledger.headers, a) && b.debited == PaidOut(ledger.headers, a)
            && b.balance == PaidIn(ledger.headers, a) - PaidOut(ledger.headers, a)
  {
    ReachableInv(db, steps);
    VersionIsSound(Final(db, steps), v);
    var ledger := Final(db, steps).hist[v];
    SoundLedgerIsHealthy(ledger);
    ComputedBalanceIsExact(ledger.entries, a);
    PairsMove(ledger.headers, a);
  }

  // ----- Reports over runs -----

  /** A reconcile on one snapshot, at any point of any run, reports healthy and two entries per transaction. */
  lemma EverySnapshotReconciles(db: Db, steps: seq<Step>, v: nat)
    requires Run(db, steps) && v < |Final(db, steps).hist|
    ensures var report := Reconcile(Final(db, steps).hist[v]);
            report.healthy && report.net == 0 && report.totalEntries == 2 * report.totalTransactions
  {
    ReachableInv(db, steps);
    VersionIsSound(Final(db, steps), v);
    SoundLedgerIsHealthy(Final(db, steps).hist[v]);
  }

  /** With independent reads in the code's order the report is still healthy, and never counts more than two
      entries per transaction; it counts fewer exactly if a transfer was committed between the first read and
      the last one. */
  lemma IndependentReads(db: Db, steps: seq<Step>, v1: nat, v2: nat, v3: nat, v4: nat, v5: nat, v6: nat)
    requires Run(db, steps) && v1 <= v2 <= v3 <= v4 <= v5 <= v6 < |Final(db, steps).hist|
    ensures var s := Final(db, steps);
            var report := GatherReport(s.hist[v1], s.hist[v2], s.hist[v3], s.hist[v4], s.hist[v5], s.hist[v6]);
            && report.healthy
            && report.totalEntries <= 2 * report.totalTransactions
            && (report.totalEntries < 2 * report.totalTransactions <==>
                  exists i :: v1 <= i < v6 && i < |s.log| && s.log[i].Transferred?)
  {
    var s := Final(db, steps);
    ReachableInv(db, steps);
    EverySnapshotReconciles(db, steps, v1);
    EverySnapshotReconciles(db, steps, v2);
    EverySnapshotReconciles(db, steps, v3);
    EverySnapshotReconciles(db, steps, v4);
    EverySnapshotReconciles(db, steps, v5);
    CommitsBetween(s, v1, v6);
  }

  lemma {:induction false} CommitsBetween(s: State, i: nat, j: nat)
    requires Chained(s) && i <= j <= |s.log|
    ensures |s.hist[i].headers| <= |s.hist[j].headers|
    ensures |s.hist[i].headers| < |s.hist[j].headers| <==> exists k :: i <= k < j && s.log[k].Transferred?
    decreases j
  {
    if i < j {
      CommitsBetween(s, i, j - 1);
      assert FollowsAt(s, j - 1);
      if s.log[j - 1].Transferred? {
        assert i <= j - 1 < j;
      }
    }
  }

  /** The false alarm is real: on every sound ledger that accepts a funding request, a run and two of its
      versions exist whose independent reads count fewer than two entries per transaction. */
  lemma FalseAlarm(db: Db, q: Request) returns (steps: seq<Step>)
    requires Sound(db) && Decide(db, q) == Accept && !IsUser(db.accounts, q.source)
    ensures Run(db, steps)
    ensures var s := Final(db, steps);
            && |s.hist| > 0 && s.hist[0] == db
            && var report := GatherReport(db, s.db, s.db, s.db, s.db, s.db);
               report.healthy && report.totalEntries < 2 * report.totalTransactions
  {
    SubmittedAreClear(FULL, db, [q]);
    var s := Execute(FULL, Start(db), Submissions([q]));
    var more, hs := CommitTogether(FULL, s, Ids(1));
    ExecuteAppend(FULL, Start(db), Submissions([q]), more);
    steps := Submissions([q]) + more;
    var s' := Final(db, steps);
    StartInv(db);
    StartsFrom(Start(db), steps);
    EverySnapshotReconciles(db, steps, 0);
    EverySnapshotReconciles(db, steps, |s'.log|);
  }
}
